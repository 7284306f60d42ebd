/**
  Request shaping in src/google_chat_api.py: merging safety settings with the
  configured defaults, building a payload from a native Gemini request, and
  preparing the headers and final payload from a credential.

  JSON objects are modelled by datatypes holding only the keys these
  functions read or write; every other key rides along in `others`.
*/
module GeminiPayload {
  import opened Wrappers
  import opened CredentialPool

  // ---------------------------------------------------------------------
  // Safety settings
  // ---------------------------------------------------------------------

  /** A safety setting; `category` is None when the object has no "category" key. */
  datatype SafetySetting = SafetySetting(category: Option<string>, threshold: string)

  /** The categories the caller configured: the "category" of every setting that has one. */
  function UserCategories(user: seq<SafetySetting>): set<Option<string>>
  {
    set s | s in user && s.category.Some? :: s.category
  }

  /** The defaults, in their order, whose category is not among `cats`. */
  function MissingDefaults(defaults: seq<SafetySetting>, cats: set<Option<string>>): seq<SafetySetting>
  {
    if defaults == [] then []
    else
      var last := defaults[|defaults| - 1];
      MissingDefaults(defaults[..|defaults| - 1], cats) + (if last.category !in cats then [last] else [])
  }

  /** What `_merge_safety_settings` returns. */
  function MergedSafetySettings(user: Option<seq<SafetySetting>>, defaults: seq<SafetySetting>): seq<SafetySetting>
  {
    if user.None? then defaults
    else user.value + MissingDefaults(defaults, UserCategories(user.value))
  }

  /** `_merge_safety_settings`: copy the user's list, then append each default whose category is missing. */
  method MergeSafetySettings(user: Option<seq<SafetySetting>>, defaults: seq<SafetySetting>)
    returns (merged: seq<SafetySetting>)
    ensures merged == MergedSafetySettings(user, defaults)
  {
    if user.None? {
      return defaults;
    }
    var cats := UserCategories(user.value);
    merged := user.value;
    for i := 0 to |defaults|
      invariant merged == user.value + MissingDefaults(defaults[..i], cats)
    {
      assert defaults[..i + 1][..i] == defaults[..i];
      if defaults[i].category !in cats {
        merged := merged + [defaults[i]];
      }
    }
    assert defaults[..|defaults|] == defaults;
  }

  lemma {:induction false} MissingDefaultsMembers(defaults: seq<SafetySetting>, cats: set<Option<string>>, x: SafetySetting)
    ensures x in MissingDefaults(defaults, cats) <==> x in defaults && x.category !in cats
  {
    if defaults != [] {
      var init := defaults[..|defaults| - 1];
      MissingDefaultsMembers(init, cats, x);
      assert defaults == init + [defaults[|defaults| - 1]];
    }
  }

  /**
    The merge keeps every user setting, in order and unchanged, and after them
    appends exactly the defaults whose category the user left unset; so every
    category that some default carries is covered by the result.
  */
  lemma MergedSafetySettingsSpec(user: seq<SafetySetting>, defaults: seq<SafetySetting>)
    ensures var merged := MergedSafetySettings(Some(user), defaults);
      && merged[..|user|] == user
      && (forall x :: x in merged[|user|..] <==> x in defaults && x.category !in UserCategories(user))
      && (forall d :: d in defaults && d.category.Some? ==>
            exists s :: s in merged && s.category == d.category)
  {
    var merged := MergedSafetySettings(Some(user), defaults);
    var cats := UserCategories(user);
    assert merged[|user|..] == MissingDefaults(defaults, cats);
    forall x ensures x in merged[|user|..] <==> x in defaults && x.category !in cats {
      MissingDefaultsMembers(defaults, cats, x);
    }
    forall d | d in defaults && d.category.Some?
      ensures exists s :: s in merged && s.category == d.category
    {
      if d.category in cats {
        var s :| s in user && s.category.Some? && s.category == d.category;
        assert s in merged;
      } else {
        MissingDefaultsMembers(defaults, cats, d);
        assert d in merged[|user|..];
      }
    }
  }

  // ---------------------------------------------------------------------
  // Request bodies
  // ---------------------------------------------------------------------

  datatype ThinkingConfig = ThinkingConfig(includeThoughts: Option<bool>, thinkingBudget: Option<int>)

  /** "generationConfig"; `imageConfig` is None when the key is absent or its object is empty. */
  datatype GenerationConfig = GenerationConfig(
    imageConfig: Option<string>,
    thinkingConfig: Option<ThinkingConfig>,
    others: map<string, string>)

  /** Whether a key of a tool object is absent, present with a falsy value ({} or []), or present and truthy. */
  datatype KeyState = Absent | Falsy | Truthy

  datatype Tool = Tool(functionDeclarations: KeyState, googleSearch: KeyState)

  /** The "request" object of a Gemini payload. */
  datatype GeminiRequest = GeminiRequest(
    safetySettings: Option<seq<SafetySetting>>,
    generationConfig: Option<GenerationConfig>,
    tools: Option<seq<Tool>>,
    others: map<string, string>)

  datatype Payload = Payload(model: Option<string>, request: Option<GeminiRequest>)

  const EmptyRequest := GeminiRequest(None, None, None, map[])
  const EmptyGenerationConfig := GenerationConfig(None, None, map[])

  /** What the configuration says about a model name (`get_base_model_name`, `should_include_thoughts`, ...). */
  datatype ModelTraits = ModelTraits(
    baseModel: string,
    includeThoughts: bool,
    thinkingBudget: int,
    isSearchModel: bool)

  /** The tool `build_gemini_payload_from_native` appends: `{"googleSearch": {}}`. */
  const SearchTool := Tool(Absent, Falsy)

  predicate HasTruthyFunctionDeclarations(tools: seq<Tool>)
  {
    exists t :: t in tools && t.functionDeclarations == Truthy
  }

  predicate HasTruthyGoogleSearch(tools: seq<Tool>)
  {
    exists t :: t in tools && t.googleSearch == Truthy
  }

  /**
    The tools list of a search model: `{"googleSearch": {}}` is appended unless
    some tool has a truthy "functionDeclarations" or a truthy "googleSearch".
  */
  function AddSearchTool(tools: seq<Tool>): (r: seq<Tool>)
    ensures r == tools || r == tools + [SearchTool]
    ensures r == tools + [SearchTool] <==> !HasTruthyFunctionDeclarations(tools) && !HasTruthyGoogleSearch(tools)
  {
    if !HasTruthyFunctionDeclarations(tools) && !HasTruthyGoogleSearch(tools) then tools + [SearchTool] else tools
  }

  /**
    Both checks test truthiness, and the tool appended, `{"googleSearch": {}}`,
    is falsy: a request that already carries only such tools gets one more
    search tool every time it is built, so building twice appends two.
  */
  lemma {:induction false} SearchToolAccumulates(tools: seq<Tool>)
    requires !HasTruthyFunctionDeclarations(tools) && !HasTruthyGoogleSearch(tools)
    ensures AddSearchTool(AddSearchTool(tools)) == tools + [SearchTool, SearchTool]
    ensures AddSearchTool([SearchTool]) == [SearchTool, SearchTool]
  {
    var once := tools + [SearchTool];
    forall t | t in once ensures t.functionDeclarations != Truthy && t.googleSearch != Truthy {
      if t != SearchTool {
        assert t in tools;
      }
    }
    assert once + [SearchTool] == tools + [SearchTool, SearchTool];
    assert !HasTruthyFunctionDeclarations([SearchTool]) && !HasTruthyGoogleSearch([SearchTool]);
  }

  /** `build_gemini_payload_from_native`. */
  function BuildGeminiPayloadFromNative(native: GeminiRequest, traits: ModelTraits, defaults: seq<SafetySetting>): (p: Payload)
    ensures p.model == Some(traits.baseModel) && p.request.Some?
    ensures p.request.value.safetySettings == Some(MergedSafetySettings(native.safetySettings, defaults))
    ensures p.request.value.others == native.others
  {
    var gc := if native.generationConfig.Some? then native.generationConfig.value else EmptyGenerationConfig;
    var tc := if gc.thinkingConfig.Some? then gc.thinkingConfig.value else ThinkingConfig(None, None);
    var tc' := ThinkingConfig(
      if tc.includeThoughts.Some? then tc.includeThoughts else Some(traits.includeThoughts),
      if tc.thinkingBudget.Some? then tc.thinkingBudget else Some(traits.thinkingBudget));
    var tools :=
      if traits.isSearchModel then Some(AddSearchTool(if native.tools.Some? then native.tools.value else []))
      else native.tools;
    Payload(Some(traits.baseModel), Some(native.(
      safetySettings := Some(MergedSafetySettings(native.safetySettings, defaults)),
      generationConfig := Some(gc.(thinkingConfig := Some(tc'))),
      tools := tools)))
  }

  /**
    Thinking settings the caller gave are kept and each missing one takes the
    model's value; the rest of the generation config passes through; tools
    are touched only for search models, where at most the one search tool is
    appended after the caller's tools.
  */
  lemma BuildGeminiPayloadKeepsCallerSettings(native: GeminiRequest, traits: ModelTraits, defaults: seq<SafetySetting>)
    ensures var req := BuildGeminiPayloadFromNative(native, traits, defaults).request.value;
      var gc := if native.generationConfig.Some? then native.generationConfig.value else EmptyGenerationConfig;
      var given := if gc.thinkingConfig.Some? then gc.thinkingConfig.value else ThinkingConfig(None, None);
      var base := if native.tools.Some? then native.tools.value else [];
      && req.generationConfig.Some? && req.generationConfig.value.thinkingConfig.Some?
      && var tc := req.generationConfig.value.thinkingConfig.value;
      && (given.includeThoughts.Some? ==> tc.includeThoughts == given.includeThoughts)
      && (given.includeThoughts.None? ==> tc.includeThoughts == Some(traits.includeThoughts))
      && (given.thinkingBudget.Some? ==> tc.thinkingBudget == given.thinkingBudget)
      && (given.thinkingBudget.None? ==> tc.thinkingBudget == Some(traits.thinkingBudget))
      && req.generationConfig.value.imageConfig == gc.imageConfig
      && req.generationConfig.value.others == gc.others
      && (!traits.isSearchModel ==> req.tools == native.tools)
      && (traits.isSearchModel ==>
            && req.tools.Some? && |req.tools.value| <= |base| + 1
            && req.tools.value[..|base|] == base
            && (|req.tools.value| > |base| ==> req.tools.value[|base|] == SearchTool))
  {
    var base := if native.tools.Some? then native.tools.value else [];
    if traits.isSearchModel && !HasTruthyFunctionDeclarations(base) && !HasTruthyGoogleSearch(base) {
      assert (base + [SearchTool])[..|base|] == base;
    }
  }


  // ---------------------------------------------------------------------
  // Headers and final payload
  // ---------------------------------------------------------------------

  datatype PrepareError = NoAccessToken | NoProjectId

  datatype Prepared = Prepared(
    authorization: string,
    contentType: string,
    userAgent: string,
    model: Option<string>,
    project: string,
    request: GeminiRequest)

  /** `credential_data.get("token") or credential_data.get("access_token", "")`. */
  function AccessToken(d: CredData): string
  {
    if d.token != "" then d.token else d.accessToken
  }

  /** For the public API the generation config keeps only a non-empty imageConfig. */
  function StripForPublicApi(req: GeminiRequest): (r: GeminiRequest)
    ensures r.generationConfig.Some? <==> req.generationConfig.Some?
    ensures r.generationConfig.Some? ==>
      r.generationConfig.value == GenerationConfig(req.generationConfig.value.imageConfig, None, map[])
    ensures r.safetySettings == req.safetySettings && r.tools == req.tools && r.others == req.others
  {
    match req.generationConfig
    case None => req
    case Some(gc) =>
      req.(generationConfig := Some(
        if gc.imageConfig.Some? then GenerationConfig(gc.imageConfig, None, map[]) else EmptyGenerationConfig))
  }

  /**
    `_prepare_request_headers_and_payload`: fails when the credential has no
    access token (checked first) or no project id; otherwise the bearer
    header carries the token and the payload names the credential's project.
  */
  function PrepareRequest(payload: Payload, d: CredData, usePublicApi: bool, userAgent: string)
    : (r: Result<Prepared, PrepareError>)
    ensures r.Ok? <==> AccessToken(d) != "" && d.projectId != ""
    ensures AccessToken(d) == "" ==> r == Err(NoAccessToken)
    ensures AccessToken(d) != "" && d.projectId == "" ==> r == Err(NoProjectId)
    ensures r.Ok? ==>
      && r.value.authorization == "Bearer " + AccessToken(d)
      && r.value.contentType == "application/json"
      && r.value.userAgent == userAgent
      && r.value.model == payload.model
      && r.value.project == d.projectId
      && var source := if payload.request.Some? then payload.request.value else EmptyRequest;
         r.value.request == (if usePublicApi then StripForPublicApi(source) else source)
  {
    var token := AccessToken(d);
    if token == "" then Err(NoAccessToken)
    else
      var source := if payload.request.Some? then payload.request.value else EmptyRequest;
      var request := if usePublicApi then StripForPublicApi(source) else source;
      if d.projectId == "" then Err(NoProjectId)
      else Ok(Prepared("Bearer " + token, "application/json", userAgent, payload.model, d.projectId, request))
  }

  /**
    The source strips the caller's request object in place, so a retry
    prepares the already stripped request; stripping twice changes nothing,
    so every attempt sends the same body.
  */
  lemma {:induction false} PrepareAfterStripUnchanged(payload: Payload, d: CredData, userAgent: string)
    requires payload.request.Some?
    ensures var stripped := payload.(request := Some(StripForPublicApi(payload.request.value)));
      PrepareRequest(stripped, d, true, userAgent) == PrepareRequest(payload, d, true, userAgent)
  {
    var req := payload.request.value;
    var once := StripForPublicApi(req);
    var twice := StripForPublicApi(once);
    if req.generationConfig.Some? {
      assert twice.generationConfig == once.generationConfig;
    }
    assert twice == once;
  }
}
