/** The GitBook publishing of walter/integrations/gitbook.py: the API client's
    token check, headers and URLs, the publisher's configuration, the choice
    between creating and updating a page, and the directory sync loop. The HTTP
    server, the configuration file and the directory listing are oracles; the
    SUMMARY.md template and its write are not modelled. */
module GitBook {
  import opened Errors
  import opened PyStr

  const BaseUrl := "https://api.gitbook.com/v1"
  const TokenMessage := "GitBook API token not found. Set GITBOOK_TOKEN environment variable."
  const SpaceMessage := "GitBook space ID not provided"
  const SummaryName := "SUMMARY.md"

  // ---------------------------------------------------------------------------
  // HTTP

  datatype Verb = Post | Patch

  /** One request to the GitBook API: verb, URL, headers and JSON body (an
      object with string values, in key order). */
  datatype HttpRequest = HttpRequest(verb: Verb, url: string, headers: seq<(string, string)>, body: seq<(string, string)>)

  /** The server's answer: status code and JSON object. */
  datatype HttpResponse = HttpResponse(status: int, json: map<string, string>)

  /** `response.raise_for_status(); return response.json()` */
  function RaiseForStatus(response: HttpResponse): (r: Result<map<string, string>>)
    ensures r.Err? <==> 400 <= response.status < 600
    ensures r.Err? ==> r.error == HttpError(response.status)
    ensures r.Ok? ==> r.value == response.json
  {
    if 400 <= response.status < 600 then Err(HttpError(response.status)) else Ok(response.json)
  }

  /** The URL pages of a space are created at. */
  function ContentUrl(baseUrl: string, spaceId: string): string {
    baseUrl + "/spaces/" + spaceId + "/content"
  }

  /** The URL of one page. */
  function PageUrl(baseUrl: string, spaceId: string, pageId: string): string {
    baseUrl + "/spaces/" + spaceId + "/content/" + pageId
  }

  // ---------------------------------------------------------------------------
  // GitBookAPI

  class GitBookAPI {
    const apiToken: string
    const baseUrl: string
    const headers: seq<(string, string)>

    constructor Init(apiToken: string)
      requires apiToken != ""
      ensures this.apiToken == apiToken && baseUrl == BaseUrl
      ensures headers == [("Authorization", "Bearer " + apiToken), ("Content-Type", "application/json")]
    {
      this.apiToken := apiToken;
      baseUrl := BaseUrl;
      headers := [("Authorization", "Bearer " + apiToken), ("Content-Type", "application/json")];
    }

    /** `GitBookAPI(api_token)`, with the GITBOOK_TOKEN variable as the fallback;
      no non-empty token is an error. */
    static method Create(apiToken: Option<string>, envToken: Option<string>) returns (r: Result<GitBookAPI>)
      ensures r.Err? <==> !Truthy(OrOption(apiToken, envToken))
      ensures r.Err? ==> r.error == ValueError(TokenMessage)
      ensures r.Ok? ==> fresh(r.value) && r.value.apiToken == OrOption(apiToken, envToken).value
      ensures r.Ok? ==> r.value.baseUrl == BaseUrl
      ensures r.Ok? ==>
        r.value.headers == [("Authorization", "Bearer " + r.value.apiToken), ("Content-Type", "application/json")]
    {
      var token := OrOption(apiToken, envToken);
      if !Truthy(token) {
        return Err(ValueError(TokenMessage));
      }
      var api := new GitBookAPI.Init(token.value);
      return Ok(api);
    }

    /** The request `create_page` sends. */
    function CreatePageRequest(spaceId: string, title: string, content: string): HttpRequest {
      HttpRequest(Post, ContentUrl(baseUrl, spaceId), headers, [("title", title), ("content", content)])
    }

    /** The request `update_page` sends. */
    function UpdatePageRequest(spaceId: string, pageId: string, content: string): HttpRequest {
      HttpRequest(Patch, PageUrl(baseUrl, spaceId, pageId), headers, [("content", content)])
    }

    /** `create_page(space_id, title, content)` against `server` */
    function CreatePage(spaceId: string, title: string, content: string,
                        server: HttpRequest -> HttpResponse): (r: Result<map<string, string>>)
      ensures r == RaiseForStatus(server(CreatePageRequest(spaceId, title, content)))
    {
      RaiseForStatus(server(HttpRequest(Post, ContentUrl(baseUrl, spaceId), headers,
                                        [("title", title), ("content", content)])))
    }

    /** `update_page(space_id, page_id, content)` against `server` */
    function UpdatePage(spaceId: string, pageId: string, content: string,
                        server: HttpRequest -> HttpResponse): (r: Result<map<string, string>>)
      ensures r == RaiseForStatus(server(UpdatePageRequest(spaceId, pageId, content)))
    {
      RaiseForStatus(server(HttpRequest(Patch, PageUrl(baseUrl, spaceId, pageId), headers,
                                        [("content", content)])))
    }
  }

  // ---------------------------------------------------------------------------
  // GitBookPublisher

  /** The parsed configuration file: its keys and their string values. */
  type Config = map<string, string>

  /** `config.get(key)` */
  function ConfigGet(config: Config, key: string): Option<string> {
    if key in config then Some(config[key]) else None
  }

  /** `space_id or config.get("default_space")`, which must be non-empty. */
  function ResolveSpace(spaceId: Option<string>, config: Config): (r: Result<string>)
    ensures Truthy(spaceId) ==> r == Ok(spaceId.value)
    ensures !Truthy(spaceId) && Truthy(ConfigGet(config, "default_space")) ==> r == Ok(config["default_space"])
    ensures !Truthy(spaceId) && !Truthy(ConfigGet(config, "default_space")) ==> r == Err(ValueError(SpaceMessage))
  {
    var space := OrOption(spaceId, ConfigGet(config, "default_space"));
    if Truthy(space) then Ok(space.value) else Err(ValueError(SpaceMessage))
  }

  /** One Markdown file found under the source directory: its path relative
      to that directory, and its text. */
  datatype MarkdownFile = MarkdownFile(relPath: string, content: string)

  /** One entry of `published_pages`. */
  datatype PublishedPage = PublishedPage(title: string, path: string, id: string)

  /** The last component of a relative path. */
  function BaseName(relPath: string): string {
    var parts := Split(relPath, '/');
    parts[|parts| - 1]
  }

  /** `md_file.stem.replace("-", " ").title()` */
  function PageTitle(name: string): string {
    Title(ReplaceChar(Stem(name), '-', ' '))
  }

  /** The files `sync_directory` publishes: all but those named SUMMARY.md. */
  function Publishable(files: seq<MarkdownFile>): seq<MarkdownFile>
    decreases |files|
  {
    if files == [] then []
    else (if BaseName(files[0].relPath) == SummaryName then [] else [files[0]]) + Publishable(files[1..])
  }

  /** The pages already published, followed by those of the rest of the run
      (or the rest's error). */
  function Then(published: seq<PublishedPage>, rest: Result<seq<PublishedPage>>): Result<seq<PublishedPage>> {
    if rest.Ok? then Ok(published + rest.value) else rest
  }

  class GitBookPublisher {
    const configPath: string
    const api: GitBookAPI

    constructor Init(configPath: string, api: GitBookAPI)
      ensures this.configPath == configPath && this.api == api
    {
      this.configPath := configPath;
      this.api := api;
    }

    /** `GitBookPublisher(config_path)`: the path defaults to
      `~/.walter/gitbook.yml`, and the client takes its token from the
      environment, which may fail. */
    static method Create(configPath: Option<string>, home: string, envToken: Option<string>)
      returns (r: Result<GitBookPublisher>)
      ensures r.Err? <==> !Truthy(envToken)
      ensures r.Err? ==> r.error == ValueError(TokenMessage)
      ensures r.Ok? ==> fresh(r.value) && r.value.api.apiToken == envToken.value
      ensures r.Ok? ==>
        r.value.configPath == (if configPath.Some? then configPath.value else home + "/.walter/gitbook.yml")
    {
      var path := if configPath.Some? then configPath.value else home + "/.walter/gitbook.yml";
      var api := GitBookAPI.Create(None, envToken);
      if api.Err? {
        return Err(api.error);
      }
      var publisher := new GitBookPublisher.Init(path, api.value);
      return Ok(publisher);
    }

    /** `load_config()`, where `file` is the parsed file, or `None` when the
      path does not exist. */
    function LoadConfig(file: Option<Config>): (r: Result<Config>)
      ensures file.None? ==> r == Err(FileNotFoundError("GitBook config not found at " + configPath))
      ensures file.Some? ==> r == Ok(file.value)
    {
      if file.None? then Err(FileNotFoundError("GitBook config not found at " + configPath)) else Ok(file.value)
    }

    /** The request `publish_content` makes in `space`: an update of the page
      when a page id is given, else a new page with the title. */
    function PublishRequest(content: string, title: string, space: string, pageId: Option<string>): HttpRequest {
      if Truthy(pageId) then api.UpdatePageRequest(space, pageId.value, content)
      else api.CreatePageRequest(space, title, content)
    }

    /** `publish_content(content, title, space_id, page_id)` */
    function PublishContent(content: string, title: string, spaceId: Option<string>, pageId: Option<string>,
                            file: Option<Config>, server: HttpRequest -> HttpResponse): (r: Result<map<string, string>>)
      ensures file.None? ==> r == Err(FileNotFoundError("GitBook config not found at " + configPath))
      ensures file.Some? && ResolveSpace(spaceId, file.value).Err? ==> r == Err(ValueError(SpaceMessage))
      ensures file.Some? && ResolveSpace(spaceId, file.value).Ok? ==>
        r == RaiseForStatus(server(PublishRequest(content, title, ResolveSpace(spaceId, file.value).value, pageId)))
    {
      var config := LoadConfig(file);
      if config.Err? then Err(config.error)
      else
        var space := ResolveSpace(spaceId, config.value);
        if space.Err? then Err(space.error)
        else if Truthy(pageId) then api.UpdatePage(space.value, pageId.value, content, server)
        else api.CreatePage(space.value, title, content, server)
    }

    /** One step of `sync_directory`: publish the file under its derived title
      and keep the id the server returned, or fail. */
    function PublishPage(f: MarkdownFile, space: string, file: Option<Config>,
                         server: HttpRequest -> HttpResponse): (r: Result<PublishedPage>)
      ensures var reply := PublishContent(f.content, PageTitle(BaseName(f.relPath)), Some(space), None, file, server);
        (r.Ok? <==> reply.Ok? && "id" in reply.value) &&
        (r.Ok? ==> r.value == PublishedPage(PageTitle(BaseName(f.relPath)), f.relPath, reply.value["id"])) &&
        (reply.Err? ==> r == Err(reply.error)) &&
        (reply.Ok? && "id" !in reply.value ==> r == Err(KeyError("id")))
    {
      var title := PageTitle(BaseName(f.relPath));
      var result := PublishContent(f.content, title, Some(space), None, file, server);
      if result.Err? then Err(result.error)
      else if "id" !in result.value then Err(KeyError("id"))
      else Ok(PublishedPage(title, f.relPath, result.value["id"]))
    }

    /** What publishing `files` in order gives: the first error stops the run. */
    function SyncFrom(files: seq<MarkdownFile>, space: string, file: Option<Config>,
                      server: HttpRequest -> HttpResponse): Result<seq<PublishedPage>>
      decreases |files|
    {
      if files == [] then Ok([])
      else if BaseName(files[0].relPath) == SummaryName then SyncFrom(files[1..], space, file, server)
      else
        var page := PublishPage(files[0], space, file, server);
        if page.Err? then Err(page.error)
        else Then([page.value], SyncFrom(files[1..], space, file, server))
    }

    /** `sync_directory(source_dir, space_id)` over the files the glob finds, in
      its order. */
    method SyncDirectory(files: seq<MarkdownFile>, spaceId: Option<string>, file: Option<Config>,
                         server: HttpRequest -> HttpResponse) returns (r: Result<seq<PublishedPage>>)
      ensures file.None? ==> r == Err(LoadConfig(file).error)
      ensures file.Some? && ResolveSpace(spaceId, file.value).Err? ==> r == Err(ValueError(SpaceMessage))
      ensures file.Some? && ResolveSpace(spaceId, file.value).Ok? ==>
        r == SyncFrom(files, ResolveSpace(spaceId, file.value).value, file, server)
    {
      var config := LoadConfig(file);
      if config.Err? {
        return Err(config.error);
      }
      var space := ResolveSpace(spaceId, config.value);
      if space.Err? {
        return Err(space.error);
      }
      var published: seq<PublishedPage> := [];
      var k := 0;
      assert files[0..] == files;
      ThenEmpty(SyncFrom(files, space.value, file, server));
      while k < |files|
        invariant 0 <= k <= |files|
        invariant Then(published, SyncFrom(files[k..], space.value, file, server)) == SyncFrom(files, space.value, file, server)
      {
        var md := files[k];
        assert files[k..][0] == md && files[k..][1..] == files[k + 1..];
        var name := BaseName(md.relPath);
        if name == SummaryName {
          k := k + 1;
          continue;
        }
        var title := Title(ReplaceChar(Stem(name), '-', ' '));
        var result := PublishContent(md.content, title, Some(space.value), None, file, server);
        if result.Err? {
          return Err(result.error);
        }
        if "id" !in result.value {
          return Err(KeyError("id"));
        }
        ThenAssoc(published, [PublishedPage(title, md.relPath, result.value["id"])],
                  SyncFrom(files[k + 1..], space.value, file, server));
        published := published + [PublishedPage(title, md.relPath, result.value["id"])];
        k := k + 1;
      }
      assert files[k..] == [];
      assert published + [] == published;
      r := Ok(published);
    }
  }

  lemma ThenEmpty(rest: Result<seq<PublishedPage>>)
    ensures Then([], rest) == rest
  {
    if rest.Ok? {
      assert [] + rest.value == rest.value;
    }
  }

  lemma ThenAssoc(a: seq<PublishedPage>, b: seq<PublishedPage>, rest: Result<seq<PublishedPage>>)
    ensures Then(a, Then(b, rest)) == Then(a + b, rest)
  {
    if rest.Ok? {
      assert a + (b + rest.value) == a + b + rest.value;
    }
  }

  // ---------------------------------------------------------------------------
  // Properties

  /** The update URL is the create URL followed by the page id. */
  lemma PageUrlExtendsContentUrl(baseUrl: string, spaceId: string, pageId: string)
    ensures PageUrl(baseUrl, spaceId, pageId) == ContentUrl(baseUrl, spaceId) + "/" + pageId
  {
  }

  /** A page id routes to an update that sends only the content; without one
      a page is created under the title. */
  lemma PublishDispatch(p: GitBookPublisher, content: string, title: string, space: string, pageId: Option<string>)
    ensures Truthy(pageId) ==>
      p.PublishRequest(content, title, space, pageId).verb == Patch &&
      p.PublishRequest(content, title, space, pageId).url == PageUrl(p.api.baseUrl, space, pageId.value) &&
      p.PublishRequest(content, title, space, pageId).body == [("content", content)]
    ensures !Truthy(pageId) ==>
      p.PublishRequest(content, title, space, pageId).verb == Post &&
      p.PublishRequest(content, title, space, pageId).url == ContentUrl(p.api.baseUrl, space) &&
      p.PublishRequest(content, title, space, pageId).body == [("title", title), ("content", content)]
  {
  }

  /** Hyphens become spaces before title-casing; underscores stay. */
  lemma PageTitleChars(name: string)
    ensures |PageTitle(name)| == |Stem(name)|
    ensures forall i :: 0 <= i < |Stem(name)| && Stem(name)[i] == '-' ==> PageTitle(name)[i] == ' '
    ensures forall i :: 0 <= i < |Stem(name)| && Stem(name)[i] == '_' ==> PageTitle(name)[i] == '_'
  {
    TitleShape(ReplaceChar(Stem(name), '-', ' '));
  }

  /** Run to the end, the sync publishes one page per file not named
      SUMMARY.md, in order: the page `PublishPage` makes of that file, with its
      derived title, its relative path and the id the server returned. */
  lemma {:induction false} SyncPublishesEachFile(p: GitBookPublisher, files: seq<MarkdownFile>, space: string,
                                                 file: Option<Config>, server: HttpRequest -> HttpResponse)
    requires p.SyncFrom(files, space, file, server).Ok?
    ensures |p.SyncFrom(files, space, file, server).value| == |Publishable(files)|
    ensures forall i :: 0 <= i < |Publishable(files)| ==>
      p.PublishPage(Publishable(files)[i], space, file, server) == Ok(p.SyncFrom(files, space, file, server).value[i])
    decreases |files|
  {
    if files != [] {
      var rest := p.SyncFrom(files[1..], space, file, server);
      if BaseName(files[0].relPath) == SummaryName {
        assert Publishable(files) == Publishable(files[1..]);
        SyncPublishesEachFile(p, files[1..], space, file, server);
      } else {
        var page := p.PublishPage(files[0], space, file, server);
        assert page.Ok? && p.SyncFrom(files, space, file, server) == Then([page.value], rest);
        SyncPublishesEachFile(p, files[1..], space, file, server);
        assert Publishable(files) == [files[0]] + Publishable(files[1..]);
        ConsPages(m => p.PublishPage(m, space, file, server), files[0], Publishable(files[1..]), page.value, rest.value);
      }
    }
  }

  /** Publishing a file in front of a run that published each of `fs` as `pages`
      publishes each of them as the pages with its own page in front. */
  lemma ConsPages(publish: MarkdownFile -> Result<PublishedPage>, f: MarkdownFile, fs: seq<MarkdownFile>,
                  page: PublishedPage, pages: seq<PublishedPage>)
    requires publish(f) == Ok(page)
    requires |fs| == |pages| && forall i :: 0 <= i < |fs| ==> publish(fs[i]) == Ok(pages[i])
    ensures forall i :: 0 <= i < |[f] + fs| ==> publish(([f] + fs)[i]) == Ok(([page] + pages)[i])
  {
    forall i | 0 <= i < |[f] + fs|
      ensures publish(([f] + fs)[i]) == Ok(([page] + pages)[i])
    {
      if i > 0 {
        assert ([f] + fs)[i] == fs[i - 1] && ([page] + pages)[i] == pages[i - 1];
      }
    }
  }


  /** Hence each published page holds the title derived from its file name,
      its relative path and the id of the server's reply for it. */
  lemma SyncedPageFields(p: GitBookPublisher, files: seq<MarkdownFile>, space: string,
                         file: Option<Config>, server: HttpRequest -> HttpResponse, i: nat)
    requires p.SyncFrom(files, space, file, server).Ok?
    requires i < |Publishable(files)|
    ensures var f := Publishable(files)[i];
      var reply := p.PublishContent(f.content, PageTitle(BaseName(f.relPath)), Some(space), None, file, server);
      i < |p.SyncFrom(files, space, file, server).value| &&
      reply.Ok? && "id" in reply.value &&
      p.SyncFrom(files, space, file, server).value[i] == PublishedPage(PageTitle(BaseName(f.relPath)), f.relPath, reply.value["id"])
  {
    SyncPublishesEachFile(p, files, space, file, server);
  }

  /** No published page comes from a file named SUMMARY.md. */
  lemma {:induction false} PublishableSkipsSummary(files: seq<MarkdownFile>)
    ensures forall f :: f in Publishable(files) <==> f in files && BaseName(f.relPath) != SummaryName
    decreases |files|
  {
    if files != [] {
      PublishableSkipsSummary(files[1..]);
      assert files == [files[0]] + files[1..];
    }
  }

  /** A page without an id in the reply stops the run with a KeyError. */
  lemma MissingIdStops(p: GitBookPublisher, f: MarkdownFile, more: seq<MarkdownFile>, space: string,
                       file: Option<Config>, server: HttpRequest -> HttpResponse)
    requires BaseName(f.relPath) != SummaryName
    requires p.PublishContent(f.content, PageTitle(BaseName(f.relPath)), Some(space), None, file, server).Ok?
    requires "id" !in p.PublishContent(f.content, PageTitle(BaseName(f.relPath)), Some(space), None, file, server).value
    ensures p.SyncFrom([f] + more, space, file, server) == Err(KeyError("id"))
  {
    assert ([f] + more)[0] == f;
  }

  /** A Markdown file's stem is its name without ".md". */
  lemma MarkdownStem(base: string)
    requires base != [] && '.' !in base
    ensures Stem(base + ".md") == base
  {
    var s := base + ".md";
    assert s[..|s| - 1] == base + ".m";
    assert (base + ".m")[..|base| + 1] == base + ".";
    assert RFind(s, '.') == |base|;
    assert s[..|base|] == base;
  }

  /** The page title of "<a><sep><b>.md" for two lower-case words: a hyphen
      becomes a space, an underscore stays, and both words are capitalised. */
  lemma TwoWordPageTitle(a: string, sep: char, b: string)
    requires a != [] && forall i :: 0 <= i < |a| ==> IsLower(a[i])
    requires b != [] && forall i :: 0 <= i < |b| ==> IsLower(b[i])
    requires sep == '-' || sep == '_'
    ensures PageTitle(a + [sep] + b + ".md") ==
      [UpperChar(a[0])] + a[1..] + [if sep == '-' then ' ' else sep] + [UpperChar(b[0])] + b[1..]
  {
    var w := a + [sep] + b;
    assert forall i :: 0 <= i < |w| ==> w[i] == sep || IsLower(w[i]);
    MarkdownStem(w);
    var t := a + [if sep == '-' then ' ' else sep] + b;
    assert ReplaceChar(w, '-', ' ') == t;
    TitleTwoWords(a, if sep == '-' then ' ' else sep, b);
  }

  /** Underscores are not word breaks for the page title: "user_guide.md"
      becomes "User_Guide". */
  lemma UnderscoreTitle(name: string)
    requires name == "user_guide.md"
    ensures PageTitle(name) == "User_Guide"
  {
    UserGuideWords();
    UnderscorePageTitle("user", "guide", name);
  }

  /** The page title of `a_b.md` for lower-case words `a` and `b`. */
  lemma UnderscorePageTitle(a: string, b: string, name: string)
    requires a != [] && forall i :: 0 <= i < |a| ==> IsLower(a[i])
    requires b != [] && forall i :: 0 <= i < |b| ==> IsLower(b[i])
    requires name == a + ['_'] + b + ".md"
    ensures PageTitle(name) == [UpperChar(a[0])] + a[1..] + ['_'] + [UpperChar(b[0])] + b[1..]
  {
    TwoWordPageTitle(a, '_', b);
  }

  /** A file in a sub-directory is titled by its own name: the directory
      part of the relative path plays no part in the title. */
  lemma NestedPageTitle(dir: string, name: string)
    requires '/' !in dir && '/' !in name
    ensures BaseName(dir + "/" + name) == name
    ensures PageTitle(BaseName(dir + "/" + name)) == PageTitle(name)
  {
    assert dir + "/" + name == dir + ['/'] + name;
    SplitFirstLine(dir, name, '/');
    SplitNoSeparator(name, '/');
  }

  lemma UserGuideWords()
    ensures forall i :: 0 <= i < |"user"| ==> IsLower("user"[i])
    ensures forall i :: 0 <= i < |"guide"| ==> IsLower("guide"[i])
    ensures [UpperChar("user"[0])] + "user"[1..] + ['_'] + [UpperChar("guide"[0])] + "guide"[1..] == "User_Guide"
    ensures "user_guide.md" == "user" + ['_'] + "guide" + ".md"
  {
    assert "user"[0] == 'u' && "user"[1..] == "ser" && "guide"[0] == 'g' && "guide"[1..] == "uide";
  }
}
