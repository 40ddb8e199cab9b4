/**
 * The source-selection screen: the list of predefined quiz sources (fetched,
 * or taken from the environment when the fetch fails), and the URL and JSON
 * inputs with their validation and load buttons.
 */
module SourceSelector {
  import opened Wrappers
  import JsText

  datatype QuizSource = QuizSource(name: string, url: string)

  /** A JavaScript value is truthy as a string field: present and not empty. */
  predicate Truthy(v: Option<string>) {
    v.Some? && v.value != ""
  }

  /** `a || b || fallback` over string fields. */
  function OrElse(a: Option<string>, b: Option<string>, fallback: string): (r: string)
    ensures Truthy(a) ==> r == a.value
    ensures !Truthy(a) && Truthy(b) ==> r == b.value
    ensures !Truthy(a) && !Truthy(b) ==> r == fallback
  {
    if Truthy(a) then a.value else if Truthy(b) then b.value else fallback
  }

  /** One element of the fetched array: `null`, or an object with these fields (missing or non-string as `None`). */
  datatype ApiItem = NullItem | Item(name: Option<string>, title: Option<string>, url: Option<string>, link: Option<string>)

  /** The body of the fetched list: not JSON, JSON that is not an array, or an array. */
  datatype ApiPayload = ApiUnparsable | ApiNotArray | ApiItems(items: seq<ApiItem>)

  datatype ApiResponse = ApiHttpError(status: int) | ApiNetworkError | ApiBody(payload: ApiPayload)

  /** Why the list fell back to the environment. */
  datatype ApiFailure = ApiStatus(status: int) | ApiUnreachable | ApiBadJson | ApiNotAnArray | ApiNullElement

  /** `{ name: item.name || item.title || 'Unnamed Quiz', url: item.url || item.link || '' }`. */
  function Normalized(item: ApiItem): QuizSource
    requires item.Item?
  {
    QuizSource(OrElse(item.name, item.title, "Unnamed Quiz"), OrElse(item.url, item.link, ""))
  }

  /** The `map` then `filter(source => source.url)`; a `null` element makes `item.name` throw. */
  function NormalizeAll(items: seq<ApiItem>): Result<seq<QuizSource>, ApiFailure> {
    if items == [] then Ok([])
    else if items[0].NullItem? then Err(ApiNullElement)
    else
      match NormalizeAll(items[1..])
      case Err(e) => Err(e)
      case Ok(rest) =>
        var src := Normalized(items[0]);
        Ok(if src.url != "" then [src] + rest else rest)
  }

  /** The environment the build was configured with. */
  type Env = map<string, string>

  function EnvValue(env: Env, key: string): Option<string> {
    if key in env then Some(env[key]) else None
  }

  /** The `i`-th configured fallback source, when both its name and its URL are set. */
  function FallbackEntry(env: Env, i: int): Option<QuizSource> {
    var name := EnvValue(env, "VITE_FALLBACK_QUIZ_" + JsText.IntToString(i) + "_NAME");
    var url := EnvValue(env, "VITE_FALLBACK_QUIZ_" + JsText.IntToString(i) + "_URL");
    if Truthy(name) && Truthy(url) then Some(QuizSource(name.value, url.value)) else None
  }

  /** The fallback sources among the first `n` configured ones, in order. */
  function FallbackUpTo(env: Env, n: nat): seq<QuizSource> {
    if n == 0 then []
    else FallbackUpTo(env, n - 1) + (if FallbackEntry(env, n).Some? then [FallbackEntry(env, n).value] else [])
  }

  /** `getFallbackSources()`: the loop over `i = 1..4`. */
  method FallbackSources(env: Env) returns (sources: seq<QuizSource>)
    ensures sources == FallbackUpTo(env, 4)
  {
    sources := [];
    var i := 1;
    while i <= 4
      invariant 1 <= i <= 5
      invariant sources == FallbackUpTo(env, i - 1)
    {
      var name := EnvValue(env, "VITE_FALLBACK_QUIZ_" + JsText.IntToString(i) + "_NAME");
      var url := EnvValue(env, "VITE_FALLBACK_QUIZ_" + JsText.IntToString(i) + "_URL");
      if Truthy(name) && Truthy(url) {
        sources := sources + [QuizSource(name.value, url.value)];
      }
      i := i + 1;
    }
  }

  /**
   * The fallback list has at most one source per configured slot, each with a
   * name and a URL, and holds exactly the slots configured with both.
   */
  lemma {:induction false} FallbackShape(env: Env, n: nat)
    ensures |FallbackUpTo(env, n)| <= n
    ensures forall k :: 0 <= k < |FallbackUpTo(env, n)| ==>
      FallbackUpTo(env, n)[k].name != "" && FallbackUpTo(env, n)[k].url != ""
    ensures forall src :: src in FallbackUpTo(env, n) <==> exists i :: 1 <= i <= n && FallbackEntry(env, i) == Some(src)
  {
    if n > 0 {
      FallbackShape(env, n - 1);
      var prev := FallbackUpTo(env, n - 1);
      forall src | src in FallbackUpTo(env, n)
        ensures exists i :: 1 <= i <= n && FallbackEntry(env, i) == Some(src)
      {
        if src !in prev {
          assert FallbackEntry(env, n) == Some(src);
        }
      }
      forall src | exists i :: 1 <= i <= n && FallbackEntry(env, i) == Some(src)
        ensures src in FallbackUpTo(env, n)
      {
        var i :| 1 <= i <= n && FallbackEntry(env, i) == Some(src);
        if i < n {
          assert src in prev;
        }
      }
    }
  }

  /** What the fetch effect leaves: the list, and the failure when it fell back. */
  function FetchOutcome(response: ApiResponse, env: Env): (seq<QuizSource>, Option<ApiFailure>) {
    var result :=
      match response
      case ApiHttpError(status) => Err(ApiStatus(status))
      case ApiNetworkError => Err(ApiUnreachable)
      case ApiBody(ApiUnparsable) => Err(ApiBadJson)
      case ApiBody(ApiNotArray) => Err(ApiNotAnArray)
      case ApiBody(ApiItems(items)) => NormalizeAll(items);
    match result
    case Ok(sources) => (sources, None)
    case Err(e) => (FallbackUpTo(env, 4), Some(e))
  }

  /**
   * The fetched list: with no `null` element it keeps one source per item
   * that has a URL or a link, in order, and each kept source has a name and a
   * URL; a `null` element anywhere makes the whole list fail.
   */
  lemma {:induction false} NormalizeAllShape(items: seq<ApiItem>)
    ensures NormalizeAll(items).Err? <==> exists i :: 0 <= i < |items| && items[i].NullItem?
    ensures NormalizeAll(items).Ok? ==>
      && |NormalizeAll(items).value| <= |items|
      && (forall k :: 0 <= k < |NormalizeAll(items).value| ==>
            NormalizeAll(items).value[k].url != "" && NormalizeAll(items).value[k].name != "")
      && (forall src :: src in NormalizeAll(items).value <==>
            exists i :: 0 <= i < |items| && items[i].Item? && Normalized(items[i]) == src && src.url != "")
  {
    if items != [] {
      NormalizeAllShape(items[1..]);
      if items[0].Item? && NormalizeAll(items[1..]).Ok? {
        var rest := NormalizeAll(items[1..]).value;
        forall src ensures src in NormalizeAll(items).value <==>
          exists i :: 0 <= i < |items| && items[i].Item? && Normalized(items[i]) == src && src.url != ""
        {
          if src in rest {
            var j :| 0 <= j < |items[1..]| && items[1..][j].Item? && Normalized(items[1..][j]) == src && src.url != "";
            assert items[j + 1] == items[1..][j];
          }
          if exists i :: 0 <= i < |items| && items[i].Item? && Normalized(items[i]) == src && src.url != "" {
            var i :| 0 <= i < |items| && items[i].Item? && Normalized(items[i]) == src && src.url != "";
            if i > 0 {
              assert items[1..][i - 1] == items[i];
            }
          }
        }
      }
      if items[0].NullItem? {
        assert exists i :: 0 <= i < |items| && items[i].NullItem?;
      }
      if NormalizeAll(items[1..]).Err? {
        var j :| 0 <= j < |items[1..]| && items[1..][j].NullItem?;
        assert items[j + 1].NullItem?;
      }
      if exists i :: 0 <= i < |items| && items[i].NullItem? {
        var i :| 0 <= i < |items| && items[i].NullItem?;
        if i > 0 {
          assert items[1..][i - 1].NullItem?;
        }
      }
    }
  }

  /** A successful fetch shows the fetched list and no failure; every failure shows the fallback list. */
  lemma FetchOutcomeShape(response: ApiResponse, env: Env)
    ensures var (sources, failure) := FetchOutcome(response, env);
      && (failure.None? <==> response.ApiBody? && response.payload.ApiItems? && NormalizeAll(response.payload.items).Ok?)
      && (failure.None? ==> sources == NormalizeAll(response.payload.items).value)
      && (failure.Some? ==> sources == FallbackUpTo(env, 4) && |sources| <= 4)
  {
    FallbackShape(env, 4);
  }

  /** `SOURCES_LIMIT`: `parseInt` of the configured value, or of `'4'` when it is unset or empty. */
  function SourcesLimit(env: Env): Option<int> {
    var v := EnvValue(env, "VITE_QUIZ_PREDEFINED_SOURCES_LIMIT");
    JsText.ParseInt(if Truthy(v) then v.value else "4")
  }

  /** `predefinedSources.slice(0, SOURCES_LIMIT)`; a `NaN` end slices to nothing. */
  function Shown(sources: seq<QuizSource>, limit: Option<int>): seq<QuizSource> {
    JsText.SliceFromStart(sources, if limit.Some? then limit.value else 0)
  }

  /** The screen shows the first sources only, at most as many as the limit; unconfigured, at most four. */
  lemma ShownShape(sources: seq<QuizSource>, env: Env)
    ensures var shown := Shown(sources, SourcesLimit(env));
      && shown == sources[..|shown|]
      && (SourcesLimit(env).Some? && SourcesLimit(env).value >= 0 ==> |shown| <= SourcesLimit(env).value)
      && ("VITE_QUIZ_PREDEFINED_SOURCES_LIMIT" !in env ==> |shown| <= 4)
  {
    if "VITE_QUIZ_PREDEFINED_SOURCES_LIMIT" !in env {
      assert JsText.NatToString(4) == "4";
      JsText.ParseIntOfIntToString(4);
    }
  }

  datatype Tab = Predefined | UrlTab | JsonTab

  datatype Validity = Valid | Invalid

  /** What `JSON.parse` makes of the pasted text. */
  datatype JsonParse = NotJson | NonEmptyArray | OtherJson

  /** `validateUrl(url)`: the `URL` constructor's verdict is `parses`. */
  function UrlVerdict(url: string, parses: bool): (r: Validity)
    ensures r == Valid <==> parses && (JsText.StartsWith(url, "http://") || JsText.StartsWith(url, "https://"))
  {
    if parses && (JsText.StartsWith(url, "http://") || JsText.StartsWith(url, "https://")) then Valid else Invalid
  }

  /** `validateJson(text)`: nothing for blank input, valid only for a non-empty array. */
  function JsonVerdict(text: string, parsed: JsonParse): (r: Option<Validity>)
    ensures r.None? <==> JsText.IsBlank(text)
    ensures r == Some(Valid) <==> !JsText.IsBlank(text) && parsed == NonEmptyArray
  {
    if JsText.IsBlank(text) then None else if parsed == NonEmptyArray then Some(Valid) else Some(Invalid)
  }

  /** Where a load request points: a URL, or the pasted JSON (sent as a base-64 data URL). */
  datatype SourceRef = Url(url: string) | InlineJson(content: string)

  /** The arguments of `onLoadQuestions`. */
  datatype LoadRequest = LoadRequest(source: SourceRef, sourceName: string)

  /** Whether `btoa(s)` succeeds: it throws on any character above U+00FF. */
  predicate Latin1(s: string) {
    forall i :: 0 <= i < |s| ==> s[i] <= '\U{FF}'
  }

  predicate IsHttp(url: string) {
    JsText.StartsWith(url, "http://") || JsText.StartsWith(url, "https://")
  }

  /** The component's state fields. */
  class Selector {
    var activeTab: Tab
    var customUrl: string
    var jsonContent: string
    var urlValidation: Option<Validity>
    var jsonValidation: Option<Validity>
    var predefinedSources: seq<QuizSource>
    var apiLoading: bool
    var apiError: Option<ApiFailure>

    /**
     * The verdicts describe the inputs they were computed for: a URL marked
     * valid uses `http` or `https`, and JSON marked valid is not blank.
     */
    ghost predicate Consistent()
      reads this
    {
      && (urlValidation == Some(Valid) ==> customUrl != "" && IsHttp(customUrl))
      && (jsonValidation == Some(Valid) ==> !JsText.IsBlank(jsonContent))
    }

    constructor ()
      ensures activeTab == Predefined && customUrl == "" && jsonContent == ""
      ensures urlValidation.None? && jsonValidation.None?
      ensures predefinedSources == [] && apiLoading && apiError.None?
      ensures Consistent()
    {
      activeTab, customUrl, jsonContent := Predefined, "", "";
      urlValidation, jsonValidation := None, None;
      predefinedSources, apiLoading, apiError := [], true, None;
    }

    /** The start of the fetch effect. */
    method BeginFetch()
      modifies this
      ensures old(Consistent()) ==> Consistent()
      ensures apiLoading && apiError.None?
      ensures predefinedSources == old(predefinedSources) && customUrl == old(customUrl) && jsonContent == old(jsonContent)
      ensures urlValidation == old(urlValidation) && jsonValidation == old(jsonValidation) && activeTab == old(activeTab)
    {
      apiLoading, apiError := true, None;
    }

    /**
     * The rest of the fetch effect, once the response is known; a success
     * leaves `apiError` as `BeginFetch` cleared it.
     */
    method FinishFetch(response: ApiResponse, env: Env)
      modifies this
      ensures old(Consistent()) ==> Consistent()
      ensures predefinedSources == FetchOutcome(response, env).0 && !apiLoading
      ensures apiError == if FetchOutcome(response, env).1.Some? then FetchOutcome(response, env).1 else old(apiError)
      ensures customUrl == old(customUrl) && jsonContent == old(jsonContent)
      ensures urlValidation == old(urlValidation) && jsonValidation == old(jsonValidation) && activeTab == old(activeTab)
    {
      var result: Result<seq<QuizSource>, ApiFailure>;
      match response {
        case ApiHttpError(status) => result := Err(ApiStatus(status));
        case ApiNetworkError => result := Err(ApiUnreachable);
        case ApiBody(ApiUnparsable) => result := Err(ApiBadJson);
        case ApiBody(ApiNotArray) => result := Err(ApiNotAnArray);
        case ApiBody(ApiItems(items)) => result := NormalizeAll(items);
      }
      match result {
        case Ok(sources) =>
          predefinedSources := sources;
        case Err(e) =>
          apiError := Some(e);
          predefinedSources := FallbackSources(env);
      }
      apiLoading := false;
    }

    /** `fetchPredefinedSources()` from start to end. */
    method FetchPredefined(response: ApiResponse, env: Env)
      modifies this
      ensures old(Consistent()) ==> Consistent()
      ensures (predefinedSources, apiError) == FetchOutcome(response, env) && !apiLoading
      ensures customUrl == old(customUrl) && jsonContent == old(jsonContent)
      ensures urlValidation == old(urlValidation) && jsonValidation == old(jsonValidation) && activeTab == old(activeTab)
    {
      BeginFetch();
      FinishFetch(response, env);
    }

    method SelectTab(tab: Tab)
      modifies this
      ensures old(Consistent()) ==> Consistent()
      ensures activeTab == tab
      ensures predefinedSources == old(predefinedSources) && customUrl == old(customUrl) && jsonContent == old(jsonContent)
      ensures urlValidation == old(urlValidation) && jsonValidation == old(jsonValidation)
      ensures apiLoading == old(apiLoading) && apiError == old(apiError)
    {
      activeTab := tab;
    }

    /** `handleUrlChange(url)`; `parses` is whether `new URL(url)` succeeds. */
    method HandleUrlChange(url: string, parses: bool)
      modifies this
      ensures customUrl == url
      ensures urlValidation == if url == "" then None else Some(UrlVerdict(url, parses))
      ensures predefinedSources == old(predefinedSources) && jsonContent == old(jsonContent) && activeTab == old(activeTab)
      ensures jsonValidation == old(jsonValidation) && apiLoading == old(apiLoading) && apiError == old(apiError)
      ensures old(Consistent()) ==> Consistent()
    {
      customUrl := url;
      if url != "" {
        urlValidation := Some(UrlVerdict(url, parses));
      } else {
        urlValidation := None;
      }
    }

    /** `handleJsonChange(text)`; `parsed` is what `JSON.parse(text)` gives. */
    method HandleJsonChange(text: string, parsed: JsonParse)
      modifies this
      ensures jsonContent == text && jsonValidation == JsonVerdict(text, parsed)
      ensures predefinedSources == old(predefinedSources) && customUrl == old(customUrl) && activeTab == old(activeTab)
      ensures urlValidation == old(urlValidation) && apiLoading == old(apiLoading) && apiError == old(apiError)
      ensures old(Consistent()) ==> Consistent()
    {
      jsonContent := text;
      jsonValidation := JsonVerdict(text, parsed);
    }

    /**
     * `handleLoadFromUrl`: loads exactly when the URL button is enabled (the
     * loading flag aside), and what it loads is an `http` or `https` address.
     */
    method HandleLoadFromUrl() returns (request: Option<LoadRequest>)
      ensures request.Some? <==> !UrlButtonDisabled(customUrl, urlValidation, false)
      ensures request.Some? ==> request.value == LoadRequest(Url(customUrl), "Custom URL")
      ensures Consistent() && request.Some? ==> IsHttp(request.value.source.url)
    {
      if customUrl != "" && urlValidation == Some(Valid) {
        request := Some(LoadRequest(Url(customUrl), "Custom URL"));
      } else {
        request := None;
      }
    }

    /**
     * `handleLoadFromJson`: loads when the JSON button is enabled (the loading
     * flag aside) and `btoa` accepts the text; text with a character above
     * U+00FF makes `btoa` throw, and nothing loads.
     */
    method HandleLoadFromJson() returns (request: Option<LoadRequest>)
      ensures request.Some? <==> !JsonButtonDisabled(jsonContent, jsonValidation, false) && Latin1(jsonContent)
      ensures request.Some? ==> request.value == LoadRequest(InlineJson(jsonContent), "Custom JSON")
      ensures Consistent() && request.Some? ==> !JsText.IsBlank(request.value.source.content)
    {
      if jsonContent != "" && jsonValidation == Some(Valid) {
        var encodable := true;
        var i := 0;
        while i < |jsonContent|
          invariant 0 <= i <= |jsonContent|
          invariant encodable <==> forall k :: 0 <= k < i ==> jsonContent[k] <= '\U{FF}'
        {
          if jsonContent[i] > '\U{FF}' {
            encodable := false;
          }
          i := i + 1;
        }
        if encodable {
          request := Some(LoadRequest(InlineJson(jsonContent), "Custom JSON"));
        } else {
          request := None;
        }
      } else {
        request := None;
      }
    }
  }

  /** The URL button is disabled without a valid URL or while questions load. */
  predicate UrlButtonDisabled(customUrl: string, urlValidation: Option<Validity>, isLoading: bool) {
    customUrl == "" || urlValidation != Some(Valid) || isLoading
  }

  predicate JsonButtonDisabled(jsonContent: string, jsonValidation: Option<Validity>, isLoading: bool) {
    jsonContent == "" || jsonValidation != Some(Valid) || isLoading
  }

  /** A predefined source card: disabled while loading or without a URL; a click loads it under its name. */
  function PredefinedClick(shown: seq<QuizSource>, index: int, isLoading: bool): (r: Option<LoadRequest>)
    ensures r.Some? <==> 0 <= index < |shown| && !isLoading && shown[index].url != ""
    ensures r.Some? ==> r.value == LoadRequest(Url(shown[index].url), shown[index].name)
  {
    if 0 <= index < |shown| && !isLoading && shown[index].url != "" then Some(LoadRequest(Url(shown[index].url), shown[index].name))
    else None
  }

  /**
   * A click on a shown card loads one of the listed sources, one that has a
   * URL; when the fetch succeeded, that source is the normalised form of one
   * of the fetched items.
   */
  lemma PredefinedClickLoadsListedSource(response: ApiResponse, env: Env, index: int, isLoading: bool)
    ensures var sources := FetchOutcome(response, env).0;
      var r := PredefinedClick(Shown(sources, SourcesLimit(env)), index, isLoading);
      r.Some? ==> exists src :: src in sources && src.url != "" && r.value == LoadRequest(Url(src.url), src.name)
    ensures var (sources, failure) := FetchOutcome(response, env);
      var r := PredefinedClick(Shown(sources, SourcesLimit(env)), index, isLoading);
      failure.None? && r.Some? ==>
        exists i :: 0 <= i < |response.payload.items| && response.payload.items[i].Item?
          && r.value == LoadRequest(Url(Normalized(response.payload.items[i]).url), Normalized(response.payload.items[i]).name)
  {
    var (sources, failure) := FetchOutcome(response, env);
    var shown := Shown(sources, SourcesLimit(env));
    var r := PredefinedClick(shown, index, isLoading);
    ShownShape(sources, env);
    FetchOutcomeShape(response, env);
    if r.Some? {
      var src := shown[index];
      assert src == sources[index];
      assert src in sources;
      if failure.None? {
        NormalizeAllShape(response.payload.items);
        var i :| 0 <= i < |response.payload.items| && response.payload.items[i].Item?
          && Normalized(response.payload.items[i]) == src && src.url != "";
      }
    }
  }

  /**
   * A URL typed into the input can be loaded exactly when it uses `http` or
   * `https` and parses; the JSON input exactly when it is a non-empty array.
   */
  lemma InputsGateLoading(url: string, parses: bool, text: string, parsed: JsonParse)
    ensures var v := if url == "" then None else Some(UrlVerdict(url, parses));
      !UrlButtonDisabled(url, v, false) <==>
        url != "" && parses && (JsText.StartsWith(url, "http://") || JsText.StartsWith(url, "https://"))
    ensures !JsonButtonDisabled(text, JsonVerdict(text, parsed), false) <==>
      text != "" && !JsText.IsBlank(text) && parsed == NonEmptyArray
  {
  }

  /** An `ftp` address never loads, whatever the URL parser says. */
  lemma FtpRejected(rest: string, parses: bool)
    ensures UrlVerdict("ftp://" + rest, parses) == Invalid
  {
    var u := "ftp://" + rest;
    assert u[0] == 'f';
  }
}
