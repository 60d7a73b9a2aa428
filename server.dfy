/**
 * The deployed server (`src/server.ts`): the CORS allow-list and origin
 * decision, and the `/api/upload` handler with its CI and missing-client
 * branches. Environment variables are the `Env` fields (`None` when unset).
 */
module Server {
  import opened Wrappers
  import opened Strings
  import opened Analysis
  import opened UploadEndpoint

  /** The environment variables the server reads. */
  datatype Env = Env(ci: Option<string>, openAiApiKey: Option<string>, corsOrigins: Option<string>)

  /** JavaScript truthiness of an environment variable: set and not empty. */
  predicate Truthy(v: Option<string>) {
    v.Some? && v.value != []
  }

  /** `allowedOrigins`: the comma-separated entries of `CORS_ORIGINS`, each trimmed; none when it is unset or empty. */
  function AllowedOrigins(corsOrigins: Option<string>): (r: seq<string>)
    ensures !Truthy(corsOrigins) ==> r == []
    ensures Truthy(corsOrigins) ==>
      (|r| == |Split(corsOrigins.value, ',')| &&
       forall i :: 0 <= i < |r| ==> r[i] == Trim(Split(corsOrigins.value, ',')[i]))
    ensures forall i :: 0 <= i < |r| ==> IsTrimmed(r[i]) && ',' !in r[i]
  {
    if Truthy(corsOrigins) then
      var parts := Split(corsOrigins.value, ',');
      seq(|parts|, i requires 0 <= i < |parts| => Trim(parts[i]))
    else []
  }

  /** Writing a list of trimmed, comma-free origins into `CORS_ORIGINS` gives back that list. */
  lemma {:induction false} AllowedOriginsRoundTrip(origins: seq<string>)
    requires |origins| >= 1 && Join(origins, ',') != []
    requires forall i :: 0 <= i < |origins| ==> IsTrimmed(origins[i]) && ',' !in origins[i]
    ensures AllowedOrigins(Some(Join(origins, ','))) == origins
  {
    var v := Some(Join(origins, ','));
    assert Truthy(v);
    SplitJoin(origins, ',');
    var r := AllowedOrigins(v);
    forall i | 0 <= i < |origins| ensures r[i] == origins[i] {
      TrimTrimmed(origins[i]);
    }
  }

  /** `origin.replace(/\/$/, "")`: one trailing slash removed, if there is one. */
  function StripTrailingSlash(origin: string): (r: string)
    ensures r == origin || r + "/" == origin
    ensures origin != [] && origin[|origin| - 1] == '/' ==> r + "/" == origin
  {
    if origin != [] && origin[|origin| - 1] == '/' then origin[..|origin| - 1] else origin
  }

  /** The CORS verdict on a request. */
  datatype CorsDecision = Allow | Reject(message: string)

  /** The `origin` option: everything in CI; otherwise requests without an origin and listed origins. */
  function OriginDecision(env: Env, origin: Option<string>): (d: CorsDecision)
    ensures Truthy(env.ci) ==> d == Allow
    ensures !Truthy(origin) ==> d == Allow
    ensures !Truthy(env.ci) && Truthy(origin) ==>
      (d == Allow <==> StripTrailingSlash(origin.value) in AllowedOrigins(env.corsOrigins))
    ensures d.Reject? ==> d.message == "CORS blocked for origin: " + origin.value
  {
    if Truthy(env.ci) then Allow
    else if !Truthy(origin) then Allow
    else if StripTrailingSlash(origin.value) in AllowedOrigins(env.corsOrigins) then Allow
    else Reject("CORS blocked for origin: " + origin.value)
  }

  /**
   * A listed origin not ending in a slash is allowed as is; any listed origin
   * is allowed with one trailing slash added, and with two it is refused
   * unless the one-slash form is listed too. A listed entry that itself ends
   * in a slash does not admit that same text: the request's slash is
   * stripped and the list's is not.
   */
  lemma ListedOrigin(env: Env, origin: string)
    requires !Truthy(env.ci) && origin != [] && origin in AllowedOrigins(env.corsOrigins)
    ensures origin[|origin| - 1] != '/' ==> OriginDecision(env, Some(origin)) == Allow
    ensures origin[|origin| - 1] == '/' ==>
      (OriginDecision(env, Some(origin)) == Allow <==> origin[..|origin| - 1] in AllowedOrigins(env.corsOrigins))
    ensures OriginDecision(env, Some(origin + "/")) == Allow
    ensures origin + "/" !in AllowedOrigins(env.corsOrigins) ==>
      OriginDecision(env, Some(origin + "//")).Reject?
  {
    StrippedForms(origin);
    DecidedByStrippedOrigin(env, origin);
    DecidedByStrippedOrigin(env, origin + "/");
    DecidedByStrippedOrigin(env, origin + "//");
  }

  /** What stripping one trailing slash leaves of an origin and of that origin with one or two slashes added. */
  lemma StrippedForms(origin: string)
    requires origin != []
    ensures origin[|origin| - 1] != '/' ==> StripTrailingSlash(origin) == origin
    ensures origin[|origin| - 1] == '/' ==> StripTrailingSlash(origin) == origin[..|origin| - 1]
    ensures StripTrailingSlash(origin + "/") == origin
    ensures StripTrailingSlash(origin + "//") == origin + "/"
  {
    var once, twice := origin + "/", origin + "//";
    assert once[..|origin|] == origin;
    assert twice[..|once|] == once;
  }

  lemma DecidedByStrippedOrigin(env: Env, origin: string)
    requires !Truthy(env.ci) && origin != []
    ensures OriginDecision(env, Some(origin)) ==
      if StripTrailingSlash(origin) in AllowedOrigins(env.corsOrigins) then Allow
      else Reject("CORS blocked for origin: " + origin)
  {
  }

  /** A list entry ending in a slash is the stripped form of exactly one origin: itself with a second slash. */
  lemma SlashedEntryMatches(entry: string, origin: string)
    requires entry != [] && entry[|entry| - 1] == '/'
    ensures StripTrailingSlash(origin) == entry <==> origin == entry + "/"
  {
    if origin == entry + "/" {
      assert origin[..|entry|] == entry;
    }
  }

  /** `CORS_ORIGINS="a/"` lists the one entry `a/`. */
  lemma SlashedEntryListed()
    ensures AllowedOrigins(Some("a/")) == ["a/"]
  {
    SplitWhole("a/", ',');
    TrimTrimmed("a/");
  }

  /** `CORS_ORIGINS="a/"` refuses the very origin `a/` it lists. */
  lemma SlashedEntryRefused()
    ensures OriginDecision(Env(None, None, Some("a/")), Some("a/")) == Reject("CORS blocked for origin: a/")
  {
    SlashedEntryListed();
    assert StripTrailingSlash("a/") == "a";
    assert "a" != "a/";
  }

  /** With `CORS_ORIGINS` unset or empty, outside CI only requests without an origin get through. */
  lemma NoListNoOrigins(env: Env, origin: string)
    requires !Truthy(env.ci) && !Truthy(env.corsOrigins) && origin != []
    ensures OriginDecision(env, Some(origin)) == Reject("CORS blocked for origin: " + origin)
  {
  }

  /** The client is created only outside CI and with a non-empty API key. */
  predicate ClientConfigured(env: Env) {
    !(Truthy(env.ci) || !Truthy(env.openAiApiKey))
  }

  /** The analysis served in CI in place of the model's answer. */
  const CI_MOCK: SpendBeeAnalysis :=
    SpendBeeAnalysis("\U{A3}", 1000.0, 900.0, 0.0, -100.0, "Mock analysis for CI.", [], [], [])

  /** What the `{ analysis }` body carries: the model's parsed answer, or the CI mock. */
  datatype Served<J> = FromModel(json: J) | CiMock(mock: SpendBeeAnalysis)

  /** `JSON.parse`, with a success wrapped as the model's answer. */
  function ParseServed<J>(parseJson: string -> Option<J>): string -> Option<Served<J>>
  {
    s => if parseJson(s).Some? then Some(FromModel(parseJson(s).value)) else None
  }

  const NOT_CONFIGURED: string := "OpenAI not configured"

  /**
   * The `/api/upload` handler: no file is 400 before anything else; in CI any
   * file gets the mock; without a client 500; otherwise the `try` block.
   */
  method HandleUpload<J>(file: Option<UploadedFile>, env: Env, decodeUtf8: seq<bv8> -> string,
                         extractPdf: seq<bv8> -> Attempt<string>, complete: string -> Attempt<Option<string>>,
                         parseJson: string -> Option<J>)
    returns (reply: Reply<Served<J>>, sent: Option<string>)
    ensures file.None? ==> reply == Reply(400, ErrorBody(NO_FILE)) && sent.None?
    ensures file.Some? && Truthy(env.ci) ==> reply == Reply(200, AnalysisBody(CiMock(CI_MOCK))) && sent.None?
    ensures file.Some? && !Truthy(env.ci) && !ClientConfigured(env) ==>
      reply == Reply(500, ErrorBody(NOT_CONFIGURED)) && sent.None?
    ensures file.Some? && ClientConfigured(env) ==>
      reply == Analysed(FileContent(file.value, decodeUtf8, extractPdf), complete, ParseServed(parseJson))
    ensures sent.Some? ==>
      (file.Some? && ClientConfigured(env) && FileContent(file.value, decodeUtf8, extractPdf).Some? &&
       FileContent(file.value, decodeUtf8, extractPdf).value.Ok? &&
       sent.value == Prompt(FileContent(file.value, decodeUtf8, extractPdf).value.value))
    ensures reply.status == 200 <==> reply.body.AnalysisBody?
  {
    if file.None? {
      return Reply(400, ErrorBody(NO_FILE)), None;
    }
    if Truthy(env.ci) {
      return Reply(200, AnalysisBody(CiMock(CI_MOCK))), None;
    }
    if !ClientConfigured(env) {
      return Reply(500, ErrorBody(NOT_CONFIGURED)), None;
    }
    reply, sent := AnalyseFile(file.value, decodeUtf8, extractPdf, complete, ParseServed(parseJson));
    AnalysedStatus(FileContent(file.value, decodeUtf8, extractPdf), complete, ParseServed(parseJson));
  }

  /** Outside CI a served analysis is always the model's own parsed answer. */
  lemma ServedIsParsed<J>(content: Option<Attempt<string>>, complete: string -> Attempt<Option<string>>,
                          parseJson: string -> Option<J>)
    ensures var r := Analysed(content, complete, ParseServed(parseJson));
      r.body.AnalysisBody? ==>
        (r.body.analysis.FromModel? &&
         Some(r.body.analysis.json) == parseJson(complete(Prompt(content.value.value)).value.GetOr("")))
  {
  }
}
