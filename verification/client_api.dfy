/**
 * The client session: `CodeSearch` builds compound requests, fetches them
 * through an optional response cache and decodes the replies; `CsFile` is a
 * file's text and its lazily fetched annotations; `XrefNode` walks the
 * cross-reference graph. The server, the JSON parser, URL encoding and
 * local path resolution are parameters of the session.
 */
module ClientApi {
  import opened Wrappers
  import opened PyStrings
  import opened Messages
  import opened QueryStrings
  import Protocol
  import opened Records
  import opened Replies

  // ---------------------------------------------------------------------------
  // Requests and URLs

  /** An HTTP request: a GET of `url` when `data` is None, otherwise a POST of `data`. */
  datatype HttpRequest = HttpRequest(url: string, data: Option<string>)

  /** URLs longer than this are sent as a POST. */
  const MaxGetLength: nat := 1500

  /**
   * The request `_Retrieve` sends for `url`: the URL itself when it is short;
   * otherwise `scheme://netloc/path` with the query, up to any fragment, as
   * the body.
   */
  function RequestFor(url: string): (r: HttpRequest)
    ensures |url| <= MaxGetLength ==> r == HttpRequest(url, None)
    ensures |url| > MaxGetLength ==> r.data.Some? && r.url <= url && '?' !in r.url
  {
    if |url| <= MaxGetLength then HttpRequest(url, None)
    else
      var u := url[..IndexOf(url, '#')];
      var q := IndexOf(u, '?');
      HttpRequest(u[..q], Some(if q < |u| then u[q + 1..] else ""))
  }

  /** A long request URL goes to the endpoint itself, with the whole query string as the body. */
  lemma LongUrlIsPosted(host: string, qs: string)
    requires '?' !in host && '#' !in host && '#' !in qs
    requires |host + "/codesearch/json?" + qs| > MaxGetLength
    ensures RequestFor(host + "/codesearch/json?" + qs) == HttpRequest(host + "/codesearch/json", Some(qs))
  {
    var url := host + "/codesearch/json?" + qs;
    var endpoint := host + "/codesearch/json";
    assert url == endpoint + "?" + qs;
    assert '#' !in url by {
      assert forall j :: 0 <= j < |url| ==> url[j] in host || url[j] in "/codesearch/json?" || url[j] in qs by {
        forall j | 0 <= j < |url|
          ensures url[j] in host || url[j] in "/codesearch/json?" || url[j] in qs
        {
          if j < |host| { assert url[j] == host[j]; }
          else if j < |endpoint| + 1 { assert url[j] == "/codesearch/json?"[j - |host|]; }
          else { assert url[j] == qs[j - |endpoint| - 1]; }
        }
      }
    }
    IndexOfAt(url, '#', |url|);
    assert url[..|url|] == url;
    assert forall j :: 0 <= j < |endpoint| ==> url[j] != '?' by {
      forall j | 0 <= j < |endpoint| ensures url[j] != '?' {
        if j < |host| { assert url[j] == host[j]; }
        else { assert url[j] == "/codesearch/json"[j - |host|]; }
      }
    }
    IndexOfAt(url, '?', |endpoint|);
    assert url[..|endpoint|] == endpoint;
    assert url[|endpoint| + 1..] == qs;
  }

  /** What `GetFileInfo` asks the server to include. */
  datatype FetchFlags = FetchFlags(htmlContent: bool, outline: bool, folding: bool, generatedFrom: bool)
  {
    /** Only a plain request is answered from, and stored in, the per-name cache. */
    predicate Cacheable()
    {
      !htmlContent && !outline && !folding && !generatedFrom
    }
  }

  const PlainFetch: FetchFlags := FetchFlags(false, false, false, false)

  /** The `filename` argument: absent, a local path, or a `FileSpec` used as it is. */
  datatype FileArg = NoPath | Path(path: string) | Spec(spec: FileSpec)
  {
    /** Python truthiness of the argument. */
    predicate Given()
    {
      match this
      case NoPath => false
      case Path(p) => p != []
      case Spec(_) => true
    }
  }

  /** `cls(**kwargs)` for a class of the schema: `__init__` fills in what the arguments leave out. */
  function Instantiate(sch: Schema, cls: string, kwargs: seq<Entry>): (r: Result<Value>)
    ensures r.Ok? ==> r.value.Obj? && r.value.cls == cls
    ensures r.Ok? <==> cls in sch && sch[cls].Record? && (sch[cls].init.NoInit? ==> kwargs == [])
  {
    if cls !in sch || !sch[cls].Record? then Err(Unmodelled("class " + cls + " is not in the schema"))
    else Construct(cls, sch[cls].init, kwargs)
  }

  /** `CompoundRequest(annotation_request=[AnnotationRequest(file_spec=..., type=[AnnotationType(id=XREF_SIGNATURE)])])`. */
  function AnnotationRequestFor(sch: Schema, spec: FileSpec): Result<Value>
  {
    var kind :- Instantiate(sch, "AnnotationType", [Entry("id", Int(Protocol.XREF_SIGNATURE))]);
    var request :- Instantiate(sch, "AnnotationRequest", [Entry("file_spec", FileSpecValue(spec)), Entry("type", List([kind]))]);
    Instantiate(sch, "CompoundRequest", [Entry("annotation_request", List([request]))])
  }

  /** `CompoundRequest(file_info_request=[FileInfoRequest(file_spec=..., fetch_...=...)])`. */
  function FileInfoRequestFor(sch: Schema, spec: FileSpec, flags: FetchFlags): Result<Value>
  {
    var request :- Instantiate(sch, "FileInfoRequest",
                               [Entry("file_spec", FileSpecValue(spec)),
                                Entry("fetch_html_content", Bool(flags.htmlContent)),
                                Entry("fetch_outline", Bool(flags.outline)),
                                Entry("fetch_folding", Bool(flags.folding)),
                                Entry("fetch_generated_from", Bool(flags.generatedFrom))]);
    Instantiate(sch, "CompoundRequest", [Entry("file_info_request", List([request]))])
  }

  /** A list of ints as a value. */
  function IntList(xs: seq<int>): (v: Value)
    ensures v.List? && |v.items| == |xs|
  {
    List(seq(|xs|, j requires 0 <= j < |xs| => Int(xs[j])))
  }

  /** The keyword arguments `GetXrefsFor` passes to `XrefSearchRequest`. */
  function XrefKwargs(spec: FileSpec, query: string, edgeFilter: seq<int>, maxNumResults: int): seq<Entry>
  {
    [Entry("file_spec", FileSpecValue(spec)), Entry("query", Str(query)),
     Entry("edge_filter", IntList(edgeFilter)),
     Entry("max_num_results", Int(maxNumResults))]
  }

  /** `CompoundRequest(xref_search_request=[XrefSearchRequest(file_spec=..., query=..., edge_filter=..., max_num_results=...)])`. */
  function XrefRequestFor(sch: Schema, spec: FileSpec, query: string, edgeFilter: seq<int>, maxNumResults: int): Result<Value>
  {
    var request :- Instantiate(sch, "XrefSearchRequest", XrefKwargs(spec, query, edgeFilter, maxNumResults));
    Instantiate(sch, "CompoundRequest", [Entry("xref_search_request", List([request]))])
  }

  /** Two keyword lists that agree on every field `__init__` reads build the same instance. */
  lemma {:induction false} ApplyDefaultsReadsOnlyFields(fields: seq<Entry>, a: seq<Entry>, b: seq<Entry>)
    requires forall j :: 0 <= j < |fields| ==> Get(a, fields[j].key) == Get(b, fields[j].key)
    ensures ApplyDefaults(fields, a) == ApplyDefaults(fields, b)
  {
    if fields != [] {
      ApplyDefaultsReadsOnlyFields(fields[1..], a, b);
    }
  }

  /**
   * When `XrefSearchRequest.__init__` assigns no `edge_filter` field, the
   * filter never reaches the request: requests that differ only in the
   * filter are the same request.
   */
  lemma EdgeFilterIgnored(sch: Schema, spec: FileSpec, query: string, f1: seq<int>, f2: seq<int>, maxNumResults: int)
    requires "XrefSearchRequest" in sch && sch["XrefSearchRequest"].Record?
    requires sch["XrefSearchRequest"].init.Assigns? && "edge_filter" !in Keys(sch["XrefSearchRequest"].init.fields)
    ensures XrefRequestFor(sch, spec, query, f1, maxNumResults) == XrefRequestFor(sch, spec, query, f2, maxNumResults)
  {
    var a := XrefKwargs(spec, query, f1, maxNumResults);
    var b := XrefKwargs(spec, query, f2, maxNumResults);
    var fields := sch["XrefSearchRequest"].init.fields;
    assert Keys(a) == Keys(b) by {
      assert forall i | 0 <= i < |a| :: a[i].key == b[i].key;
    }
    forall j | 0 <= j < |fields|
      ensures Get(a, fields[j].key) == Get(b, fields[j].key)
    {
      assert Keys(fields)[j] == fields[j].key;
      FindKeySameKeys(a, b, fields[j].key);
    }
    ApplyDefaultsReadsOnlyFields(fields, a, b);
  }

  /** The message table assigns no `edge_filter`, so the filter a session passes is dropped. */
  lemma EdgeFilterIgnoredByProtocol(spec: FileSpec, query: string, f1: seq<int>, f2: seq<int>, maxNumResults: int)
    ensures XrefRequestFor(Protocol.Classes, spec, query, f1, maxNumResults) ==
            XrefRequestFor(Protocol.Classes, spec, query, f2, maxNumResults)
  {
    Protocol.XrefSearchRequestInit();
    EdgeFilterIgnored(Protocol.Classes, spec, query, f1, f2, maxNumResults);
  }

  // ---------------------------------------------------------------------------
  // Reading replies

  /** `response.<field>[0]`: None is not subscriptable, and an empty list has no first element. */
  function FirstOf(resp: Value, field: string): (r: Result<Value>)
    ensures r.Ok? ==> exists items :: Attr(resp, field) == Ok(List(items)) && items != [] && r.value == items[0]
  {
    var xs :- Attr(resp, field);
    match xs
    case List(items) => if items == [] then Err(IndexError) else Ok(items[0])
    case Nil => Err(TypeError)
    case _ => Err(TypeError)
  }

  /** The annotation list of the first annotation response. */
  function AnnotationsFrom(resp: Value): Result<seq<Annotation>>
  {
    var r0 :- FirstOf(resp, "annotation_response");
    var a := Attr(r0, "annotation");
    if a.Err? then Err(Failure("can't fetch annotations"))
    else if !a.value.List? then Err(AssertionError)
    else AnnotationsOf(a.value.items)
  }

  /** The file info of the first file-info response; the failure message's `%f` itself raises TypeError. */
  function FileInfoFrom(resp: Value): Result<FileInfo>
  {
    var r0 :- FirstOf(resp, "file_info_response");
    var fi := Attr(r0, "file_info");
    if fi.Err? then Err(TypeError) else FileInfoOf(fi.value)
  }

  /** The search results of the first cross-reference response; none when it has no `search_result`. */
  function XrefResultsFrom(resp: Value): Result<seq<XrefSearchResult>>
  {
    var r0 :- FirstOf(resp, "xref_search_response");
    if Attr(r0, "search_result").Err? then Ok([])
    else
      var items :- ItemsAttr(r0, "search_result");
      XrefSearchResultsOf(items)
  }

  /** `file_info.content.text` of the first file-info response. */
  function ContentTextFrom(resp: Value): Result<string>
  {
    var r0 :- FirstOf(resp, "file_info_response");
    var fi :- Attr(r0, "file_info");
    var c :- Attr(fi, "content");
    StrAttr(c, "text")
  }

  // ---------------------------------------------------------------------------
  // The session

  class CodeSearch {
    const packageName: string
    const codesearchHost: string
    /** The server: the raw reply to an HTTP request, or the error `urlopen` raises. */
    const network: HttpRequest -> Result<string>
    /** `json.loads`. */
    const decodeJson: string -> Result<Value>
    /** `urlencode(pairs, doseq=True)`. */
    const urlEncode: seq<Pair> -> string
    /** `os.path.relpath(os.path.abspath(path), source_root)`. */
    const relPath: string -> string
    /** The message classes replies are decoded into. */
    const schema: Schema
    /** Whether a `FileCache` is in use. */
    const shouldCache: bool
    /** The response cache, from URL to reply. */
    var fileCache: map<string, string>
    /** `file_info_cache`: the `CsFile` of each plainly fetched file, by name. */
    var fileInfoCache: map<string, CsFile>
    var cacheHits: nat
    var cacheMisses: nat

    /**
     * The parser yields only plain JSON, the cache holds only what the server
     * answered for each URL, and every cached file is what the server says it is.
     */
    ghost predicate Valid()
      reads this, Cached()
    {
      (forall t :: decodeJson(t).Ok? ==> Plain(decodeJson(t).value)) &&
      (forall u | u in fileCache :: network(RequestFor(u)) == Ok(fileCache[u])) &&
      (forall k {:trigger CachedFile(k, fileInfoCache[k])} | k in fileInfoCache :: CachedFile(k, fileInfoCache[k]))
    }

    /**
     * A file cached under `name` belongs to this session, holds the info a
     * plain request for a spec of that name returned, and any annotations it
     * keeps are the ones the server lists for it.
     */
    ghost predicate CachedFile(name: string, f: CsFile)
      reads f
    {
      f.cs == this &&
      (exists spec: FileSpec {:trigger FileInfoFor(spec, PlainFetch)} ::
         spec.name == name && FileInfoFor(spec, PlainFetch) == Ok(f.info)) &&
      (f.annotations.Some? ==> AnnotationsFor(f.GetFileSpec()) == Ok(f.annotations.value))
    }

    /**
     * What `Valid` promises of a cached file: its info is what a plain
     * request for its name returned, and its annotations, once fetched, are
     * what the server lists for it.
     */
    lemma CachedFromServer(name: string)
      requires Valid() && name in fileInfoCache
      ensures var f := fileInfoCache[name];
              f.cs == this &&
              (exists spec: FileSpec :: spec.name == name && FileInfoFor(spec, PlainFetch) == Ok(f.info)) &&
              (f.annotations.Some? ==> AnnotationsFor(f.GetFileSpec()) == Ok(f.annotations.value))
    {
      assert CachedFile(name, fileInfoCache[name]);
    }

    function Cached(): set<CsFile>
      reads this
    {
      set k | k in fileInfoCache :: fileInfoCache[k]
    }

    /** The number of `_Retrieve` calls so far: every call counts as exactly one hit or one miss. */
    function Retrievals(): nat
      reads this
    {
      cacheHits + cacheMisses
    }

    constructor(packageName: string, codesearchHost: string, network: HttpRequest -> Result<string>,
                decodeJson: string -> Result<Value>, urlEncode: seq<Pair> -> string, relPath: string -> string,
                shouldCache: bool, schema: Schema)
      requires forall t :: decodeJson(t).Ok? ==> Plain(decodeJson(t).value)
      ensures Valid()
      ensures this.packageName == packageName && this.codesearchHost == codesearchHost
      ensures this.network == network && this.decodeJson == decodeJson
      ensures this.urlEncode == urlEncode && this.relPath == relPath && this.shouldCache == shouldCache
      ensures this.schema == schema
      ensures fileCache == map[] && fileInfoCache == map[] && cacheHits == 0 && cacheMisses == 0
    {
      this.packageName := packageName;
      this.codesearchHost := codesearchHost;
      this.network := network;
      this.decodeJson := decodeJson;
      this.urlEncode := urlEncode;
      this.relPath := relPath;
      this.shouldCache := shouldCache;
      this.schema := schema;
      fileCache := map[];
      fileInfoCache := map[];
      cacheHits := 0;
      cacheMisses := 0;
      new;
      EmptyCachesValid();
    }

    /** With both caches empty, a session is valid as soon as its parser yields plain JSON. */
    lemma EmptyCachesValid()
      requires forall t :: decodeJson(t).Ok? ==> Plain(decodeJson(t).value)
      requires fileCache == map[] && fileInfoCache == map[]
      ensures Valid()
    {
    }

    /** `GetFileSpec(path)`: the root `"."` when no path is given, a `FileSpec` as it is, a local path resolved. */
    function GetFileSpec(path: FileArg): (r: FileSpec)
      ensures !path.Given() ==> r == FileSpec(".", packageName, "")
      ensures path.Spec? ==> r == path.spec
      ensures !path.Spec? ==> r.packageName == packageName && r.changelist == ""
    {
      match path
      case Spec(s) => s
      case Path(p) => if p == [] then FileSpec(".", packageName, "") else FileSpec(relPath(p), packageName, "")
      case NoPath => FileSpec(".", packageName, "")
    }

    /** What the server answers for `url`. */
    function Fetch(url: string): Result<string>
    {
      network(RequestFor(url))
    }

    /** Whether `_Retrieve(url)` is answered from the response cache: only a non-empty cached reply counts. */
    predicate CacheHit(url: string)
      reads this
    {
      shouldCache && url in fileCache && fileCache[url] != []
    }

    /**
     * `_Retrieve(url)`: a non-empty cached reply is a hit and is returned
     * without a request; anything else is a miss, goes to the server, and a
     * reply is stored when caching is on.
     */
    method Retrieve(url: string) returns (r: Result<string>)
      requires Valid()
      modifies this
      ensures Valid()
      ensures r == Fetch(url)
      ensures fileInfoCache == old(fileInfoCache)
      ensures old(CacheHit(url)) ==> cacheHits == old(cacheHits) + 1 && cacheMisses == old(cacheMisses) &&
                                      fileCache == old(fileCache)
      ensures !old(CacheHit(url)) ==> cacheHits == old(cacheHits) && cacheMisses == old(cacheMisses) + 1 &&
                                       fileCache == if shouldCache && r.Ok? then old(fileCache)[url := r.value]
                                                    else old(fileCache)
    {
      if shouldCache && url in fileCache {
        var cached := fileCache[url];
        if cached != [] {
          cacheHits := cacheHits + 1;
          return Ok(cached);
        }
      }
      cacheMisses := cacheMisses + 1;
      var request := RequestFor(url);
      r := network(request);
      if r.Ok? && shouldCache {
        fileCache := fileCache[url := r.value];
      }
    }

    /** The URL of a compound request: the host's JSON endpoint with the encoded query string. */
    function RequestUrl(req: Value): Result<string>
      requires req.Obj?
    {
      var qs :- AsQueryString(req);
      Ok(codesearchHost + "/codesearch/json?" + urlEncode(qs))
    }

    /** The decoded reply to a compound request, coerced into a `CompoundResponse`. */
    function Send(req: Value): Result<Value>
    {
      if !(req.Obj? && req.cls == "CompoundRequest") then
        Err(ValueError("|compound_request| should be an instance of CompoundRequest"))
      else
        var url :- RequestUrl(req);
        var text :- Fetch(url);
        var v :- decodeJson(text);
        FromShallowDict(schema, v, "CompoundResponse")
    }

    /** `SendRequestToServer`: one retrieval per request that gets as far as a URL. */
    method SendRequestToServer(req: Value) returns (r: Result<Value>)
      requires Valid()
      modifies this
      ensures Valid() && fileInfoCache == old(fileInfoCache)
      ensures r == Send(req)
      ensures Retrievals() == old(Retrievals()) + (if req.Obj? && req.cls == "CompoundRequest" && RequestUrl(req).Ok? then 1 else 0)
    {
      if !(req.Obj? && req.cls == "CompoundRequest") {
        return Err(ValueError("|compound_request| should be an instance of CompoundRequest"));
      }
      var url :- RequestUrl(req);
      var text :- Retrieve(url);
      var v :- decodeJson(text);
      r := FromShallowDict(schema, v, "CompoundResponse");
    }

    /** The reply to a request that was built, or the error building it raised. */
    function Ask(req: Result<Value>): Result<Value>
    {
      var q :- req;
      Send(q)
    }

    /** The annotations the server lists for a file. */
    function AnnotationsFor(spec: FileSpec): Result<seq<Annotation>>
    {
      var resp :- Ask(AnnotationRequestFor(schema, spec));
      AnnotationsFrom(resp)
    }

    method GetAnnotationsForFile(filename: FileArg) returns (r: Result<Value>)
      requires Valid()
      modifies this
      ensures Valid() && fileInfoCache == old(fileInfoCache)
      ensures r == Ask(AnnotationRequestFor(schema, GetFileSpec(filename)))
      ensures Retrievals() <= old(Retrievals()) + 1
    {
      var req :- AnnotationRequestFor(schema, GetFileSpec(filename));
      r := SendRequestToServer(req);
    }

    /** The file info the server returns for a file-info request. */
    function FileInfoFor(spec: FileSpec, flags: FetchFlags): Result<FileInfo>
    {
      var resp :- Ask(FileInfoRequestFor(schema, spec, flags));
      FileInfoFrom(resp)
    }

    /**
     * `GetFileInfo`: a plain request for a name already cached returns the
     * cached `CsFile` without a request; otherwise the server is asked, and
     * the new `CsFile` is cached only when the request is plain.
     */
    method GetFileInfo(filename: FileArg, flags: FetchFlags) returns (r: Result<CsFile>)
      requires Valid()
      modifies this
      ensures Valid()
      ensures r.Ok? ==> r.value.cs == this
      ensures var name := GetFileSpec(filename).name;
              flags.Cacheable() && name in old(fileInfoCache) ==>
                r == Ok(old(fileInfoCache)[name]) && fileInfoCache == old(fileInfoCache) &&
                Retrievals() == old(Retrievals()) && fileCache == old(fileCache)
      ensures var name := GetFileSpec(filename).name;
              !(flags.Cacheable() && name in old(fileInfoCache)) ==>
                (r.Ok? <==> FileInfoFor(GetFileSpec(filename), flags).Ok?) &&
                (r.Ok? ==> fresh(r.value) && Ok(r.value.info) == FileInfoFor(GetFileSpec(filename), flags) &&
                           r.value.annotations.None?) &&
                fileInfoCache == if flags.Cacheable() && r.Ok? then old(fileInfoCache)[name := r.value]
                                 else old(fileInfoCache)
    {
      var spec := GetFileSpec(filename);
      var cacheable := flags.Cacheable();
      if cacheable && spec.name in fileInfoCache {
        assert CachedFile(spec.name, fileInfoCache[spec.name]);
        return Ok(fileInfoCache[spec.name]);
      }
      var file :- NewFile(spec, flags);
      if cacheable {
        assert flags == PlainFetch;
        assert CachedFile(spec.name, file);
        fileInfoCache := fileInfoCache[spec.name := file];
      }
      return Ok(file);
    }

    /** The uncached half of `GetFileInfo`: ask the server and wrap its answer in a new `CsFile`. */
    method NewFile(spec: FileSpec, flags: FetchFlags) returns (r: Result<CsFile>)
      requires Valid()
      modifies this
      ensures Valid() && fileInfoCache == old(fileInfoCache)
      ensures r.Ok? <==> FileInfoFor(spec, flags).Ok?
      ensures r.Ok? ==> fresh(r.value) && r.value.cs == this && Ok(r.value.info) == FileInfoFor(spec, flags) &&
                        r.value.annotations.None?
      ensures r.Err? ==> r == Err(FileInfoFor(spec, flags).error)
    {
      var req :- FileInfoRequestFor(schema, spec, flags);
      var resp :- SendRequestToServer(req);
      var info :- FileInfoFrom(resp);
      var file := new CsFile(this, info);
      return Ok(file);
    }

    /** The search results of a cross-reference query. */
    function XrefsFor(signature: string, edgeFilter: seq<int>, maxNumResults: int): Result<seq<XrefSearchResult>>
    {
      var resp :- Ask(XrefRequestFor(schema, GetFileSpec(NoPath), signature, edgeFilter, maxNumResults));
      XrefResultsFrom(resp)
    }

    method GetXrefsFor(signature: string, edgeFilter: seq<int>, maxNumResults: int)
      returns (r: Result<seq<XrefSearchResult>>)
      requires Valid()
      modifies this
      ensures Valid() && fileInfoCache == old(fileInfoCache)
      ensures r == XrefsFor(signature, edgeFilter, maxNumResults)
    {
      var req :- XrefRequestFor(schema, GetFileSpec(NoPath), signature, edgeFilter, maxNumResults);
      var resp :- SendRequestToServer(req);
      r := XrefResultsFrom(resp);
    }

    /** The results `GetOverridingDefinitions(signature)` returns. */
    function OverridingDefinitions(signature: string): Result<seq<XrefSearchResult>>
    {
      var refs :- XrefsFor(signature, [Protocol.OVERRIDDEN_BY], 500);
      Ok(OverridingCandidates(refs))
    }

    /** `GetOverridingDefinitions`: each result cut down to its definition matches, results with none dropped. */
    method GetOverridingDefinitions(signature: string) returns (r: Result<seq<XrefSearchResult>>)
      requires Valid()
      modifies this
      ensures Valid() && fileInfoCache == old(fileInfoCache)
      ensures r == OverridingDefinitions(signature)
    {
      var refs :- GetXrefsFor(signature, [Protocol.OVERRIDDEN_BY], 500);
      var candidates := OverridingCandidatesIn(refs);
      return Ok(candidates);
    }

    /** The results `GetCallTargets(signature)` returns. */
    function CallTargets(signature: string): Result<seq<XrefSearchResult>>
    {
      var refs :- XrefsFor(signature, [Protocol.HAS_DECLARATION], 500);
      CallTargetsAmong(signature, refs, Overrides())
    }

    /**
     * The call targets given the declarations and what each overriding-definitions
     * query answers: the overrides of the virtual matches, or else the definitions.
     */
    function CallTargetsAmong(signature: string, refs: seq<XrefSearchResult>,
                              overrides: string -> Result<seq<XrefSearchResult>>): Result<seq<XrefSearchResult>>
    {
      var candidates :- VirtualOverrides(refs, |refs|, overrides);
      if candidates == [] then XrefsFor(signature, [Protocol.HAS_DEFINITION], 500)
      else Ok(candidates)
    }

    /**
     * A reply parsed from JSON builds its matches with `XrefSingleMatch.__init__`,
     * so no match of a cross-reference search carries `grok_modifiers`.
     */
    lemma XrefsHaveNoModifiers(signature: string, edgeFilter: seq<int>, maxNumResults: int)
      requires Valid() && ReplyTable(schema)
      ensures var r := XrefsFor(signature, edgeFilter, maxNumResults);
              r.Ok? ==> forall x, m | x in r.value && m in x.matches :: m.grokModifiers.None?
    {
      var req := XrefRequestFor(schema, GetFileSpec(NoPath), signature, edgeFilter, maxNumResults);
      if XrefsFor(signature, edgeFilter, maxNumResults).Ok? {
        var text := Fetch(RequestUrl(req.value).value).value;
        var v := decodeJson(text).value;
        CoercedCompoundClean(schema, v);
        CleanReplyResults(Send(req.value).value);
      }
    }

    /** No match is marked as a definition, so `GetOverridingDefinitions` never finds one. */
    lemma OverridingDefinitionsEmpty(signature: string)
      requires Valid() && ReplyTable(schema)
      ensures OverridingDefinitions(signature).Ok? ==> OverridingDefinitions(signature) == Ok([])
    {
      XrefsHaveNoModifiers(signature, [Protocol.OVERRIDDEN_BY], 500);
      if XrefsFor(signature, [Protocol.OVERRIDDEN_BY], 500).Ok? {
        NoModifiersNoOverrides(XrefsFor(signature, [Protocol.OVERRIDDEN_BY], 500).value);
      }
    }

    /**
     * No declaration is marked virtual, so once the declarations are fetched
     * `GetCallTargets` always falls back to the definitions search.
     */
    lemma CallTargetsAreDefinitions(signature: string)
      requires Valid() && ReplyTable(schema)
      ensures XrefsFor(signature, [Protocol.HAS_DECLARATION], 500).Ok? ==>
                CallTargets(signature) == XrefsFor(signature, [Protocol.HAS_DEFINITION], 500)
    {
      var refs := XrefsFor(signature, [Protocol.HAS_DECLARATION], 500);
      XrefsHaveNoModifiers(signature, [Protocol.HAS_DECLARATION], 500);
      if refs.Ok? {
        NoModifiersNotVirtual(refs.value, |refs.value|, Overrides());
      }
    }

    /** `GetOverridingDefinitions` as a function value. */
    function Overrides(): (f: string -> Result<seq<XrefSearchResult>>)
      ensures AnswersOverrides(f)
    {
      s => OverridingDefinitions(s)
    }

    /** `overrides` answers every signature as `GetOverridingDefinitions` does. */
    ghost predicate AnswersOverrides(overrides: string -> Result<seq<XrefSearchResult>>)
    {
      forall s {:trigger OverridingDefinitions(s)} :: overrides(s) == OverridingDefinitions(s)
    }

    /**
     * `GetCallTargets`: the overriding definitions of the virtual
     * declarations, or the definitions of the symbol when there are none.
     */
    method GetCallTargets(signature: string) returns (r: Result<seq<XrefSearchResult>>)
      requires Valid()
      modifies this
      ensures Valid() && fileInfoCache == old(fileInfoCache)
      ensures r == CallTargets(signature)
    {
      var refs :- GetXrefsFor(signature, [Protocol.HAS_DECLARATION], 500);
      r := CallTargetsFor(signature, refs, Overrides());
    }

    /** `GetCallTargets` after the declarations are fetched: their overrides, or else the definitions. */
    method CallTargetsFor(signature: string, refs: seq<XrefSearchResult>, ghost overrides: string -> Result<seq<XrefSearchResult>>)
      returns (r: Result<seq<XrefSearchResult>>)
      requires Valid() && AnswersOverrides(overrides)
      modifies this
      ensures Valid() && fileInfoCache == old(fileInfoCache)
      ensures r == CallTargetsAmong(signature, refs, overrides)
    {
      var candidates :- VirtualOverridesIn(refs, overrides);
      if candidates == [] {
        r := GetXrefsFor(signature, [Protocol.HAS_DEFINITION], 500);
      } else {
        r := Ok(candidates);
      }
    }

    /** The outer loop of `GetCallTargets`: the overrides of the virtual matches of each declaration. */
    method VirtualOverridesIn(refs: seq<XrefSearchResult>, ghost overrides: string -> Result<seq<XrefSearchResult>>)
      returns (r: Result<seq<XrefSearchResult>>)
      requires Valid() && AnswersOverrides(overrides)
      modifies this
      ensures Valid() && fileInfoCache == old(fileInfoCache)
      ensures r == VirtualOverrides(refs, |refs|, overrides)
    {
      var candidates: seq<XrefSearchResult> := [];
      var i := 0;
      while i < |refs|
        invariant 0 <= i <= |refs|
        invariant Valid() && fileInfoCache == old(fileInfoCache)
        invariant VirtualOverrides(refs, i, overrides) == Ok(candidates)
      {
        var these := OverridesAmong(refs[i].matches, overrides);
        if these.Err? {
          VirtualOverridesFails(refs, i + 1, |refs|, overrides);
          return Err(these.error);
        }
        assert VirtualOverrides(refs, i + 1, overrides) == Ok(candidates + these.value);
        candidates := candidates + these.value;
        i := i + 1;
      }
      return Ok(candidates);
    }

    /** The inner loop of `GetCallTargets`: the overrides of each virtual match of one result. */
    method OverridesAmong(matches: seq<XrefSingleMatch>, ghost overrides: string -> Result<seq<XrefSearchResult>>)
      returns (r: Result<seq<XrefSearchResult>>)
      requires Valid() && AnswersOverrides(overrides)
      modifies this
      ensures Valid() && fileInfoCache == old(fileInfoCache)
      ensures r == VirtualOverridesOf(matches, |matches|, overrides)
    {
      var candidates: seq<XrefSearchResult> := [];
      var j := 0;
      while j < |matches|
        invariant 0 <= j <= |matches|
        invariant Valid() && fileInfoCache == old(fileInfoCache)
        invariant VirtualOverridesOf(matches, j, overrides) == Ok(candidates)
      {
        var these := OverridesOfMatchIn(matches[j], overrides);
        if these.Err? {
          VirtualOverridesOfFails(matches, j + 1, |matches|, overrides);
          return Err(these.error);
        }
        assert VirtualOverridesOf(matches, j + 1, overrides) == Ok(candidates + these.value);
        candidates := candidates + these.value;
        j := j + 1;
      }
      return Ok(candidates);
    }

    /** The body of the inner loop of `GetCallTargets`: a virtual match contributes its overriding definitions. */
    method OverridesOfMatchIn(m: XrefSingleMatch, ghost overrides: string -> Result<seq<XrefSearchResult>>)
      returns (r: Result<seq<XrefSearchResult>>)
      requires Valid() && AnswersOverrides(overrides)
      modifies this
      ensures Valid() && fileInfoCache == old(fileInfoCache)
      ensures r == OverridesOfMatch(m, overrides)
    {
      if !HasFlag(m.grokModifiers, "virtual") {
        return Ok([]);
      }
      r := GetOverridingDefinitions(m.signature);
      assert overrides(m.signature) == r;
    }

    /** Whether the server's copy of a file differs from `bufferLines`. */
    function StaleFor(spec: FileSpec, bufferLines: seq<string>, checkPrefix: bool): Result<bool>
    {
      var resp :- Ask(FileInfoRequestFor(schema, spec, PlainFetch));
      var text :- ContentTextFrom(resp);
      Ok(Stale(Split(text, '\n'), bufferLines, checkPrefix))
    }

    /** `IsContentStale`: fetch the file plainly and compare it line by line. */
    method IsContentStale(filename: FileArg, bufferLines: seq<string>, checkPrefix: bool) returns (r: Result<bool>)
      requires Valid()
      modifies this
      ensures Valid() && fileInfoCache == old(fileInfoCache)
      ensures r == StaleFor(GetFileSpec(filename), bufferLines, checkPrefix)
    {
      var req :- FileInfoRequestFor(schema, GetFileSpec(filename), PlainFetch);
      var resp :- SendRequestToServer(req);
      var text :- ContentTextFrom(resp);
      var stale := ContentDiffers(Split(text, '\n'), bufferLines, checkPrefix);
      return Ok(stale);
    }

    /**
     * `GetSignatureForLocation`: the signature of the first annotation of the
     * file whose range contains the position.
     */
    method GetSignatureForLocation(filename: FileArg, line: int, column: int) returns (r: Result<string>)
      requires Valid()
      modifies this, Cached()
      ensures Valid()
      ensures r.Ok? ==> var name := GetFileSpec(filename).name;
                        name in fileInfoCache && fileInfoCache[name].annotations.Some? &&
                        r == SignatureAt(fileInfoCache[name].annotations.value, line, column)
    {
      var file :- GetFileInfo(filename, PlainFetch);
      var annotations :- file.GetAnnotations();
      r := SignatureForLocationIn(annotations, line, column);
    }

    /**
     * `GetSignatureForSymbol`: the first cross-reference signature of the
     * file that contains `symbol(`.
     */
    method GetSignatureForSymbol(filename: FileArg, symbol: string) returns (r: Result<string>)
      requires Valid()
      modifies this, Cached()
      ensures Valid()
      ensures r.Ok? ==> var name := GetFileSpec(filename).name;
                        name in fileInfoCache && fileInfoCache[name].annotations.Some? &&
                        r == SignatureFor(fileInfoCache[name].annotations.value, symbol)
    {
      var file :- GetFileInfo(filename, PlainFetch);
      var annotations :- file.GetAnnotations();
      r := SignatureForSymbolIn(annotations, symbol);
    }
  }

  // ---------------------------------------------------------------------------
  // Overriding definitions and call targets

  /** `hasattr(m, 'grok_modifiers') and hasattr(m.grok_modifiers, flag) and m.grok_modifiers.<flag>`. */
  predicate HasFlag(grokModifiers: Option<Value>, flag: string)
  {
    grokModifiers.Some? && Attr(grokModifiers.value, flag).Ok? && Truthy(Attr(grokModifiers.value, flag).value)
  }

  /** The matches marked as definitions, in order. */
  function DefinitionMatches(ms: seq<XrefSingleMatch>): (r: seq<XrefSingleMatch>)
    ensures |r| <= |ms|
  {
    if ms == [] then []
    else
      var init := DefinitionMatches(ms[..|ms| - 1]);
      var last := ms[|ms| - 1];
      if HasFlag(last.grokModifiers, "definition") then init + [last] else init
  }

  /** The results that have definition matches, each cut down to them. */
  function OverridingCandidates(refs: seq<XrefSearchResult>): (r: seq<XrefSearchResult>)
    ensures |r| <= |refs|
  {
    if refs == [] then []
    else
      var init := OverridingCandidates(refs[..|refs| - 1]);
      var last := refs[|refs| - 1];
      var matches := DefinitionMatches(last.matches);
      if matches != [] then init + [XrefSearchResult(last.file, matches)] else init
  }

  /** The outer loop of `GetOverridingDefinitions` over the results it fetched. */
  method OverridingCandidatesIn(refs: seq<XrefSearchResult>) returns (candidates: seq<XrefSearchResult>)
    ensures candidates == OverridingCandidates(refs)
  {
    candidates := [];
    var i := 0;
    while i < |refs|
      invariant 0 <= i <= |refs|
      invariant candidates == OverridingCandidates(refs[..i])
    {
      var result := refs[i];
      var matches := DefinitionMatchesIn(result.matches);
      if matches != [] {
        candidates := candidates + [XrefSearchResult(result.file, matches)];
      }
      assert refs[..i + 1][..i] == refs[..i];
      i := i + 1;
    }
    assert refs[..i] == refs;
  }

  /** The inner loop of `GetOverridingDefinitions`: the definition matches of one result. */
  method DefinitionMatchesIn(ms: seq<XrefSingleMatch>) returns (matches: seq<XrefSingleMatch>)
    ensures matches == DefinitionMatches(ms)
  {
    matches := [];
    var j := 0;
    while j < |ms|
      invariant 0 <= j <= |ms|
      invariant matches == DefinitionMatches(ms[..j])
    {
      if HasFlag(ms[j].grokModifiers, "definition") {
        matches := matches + [ms[j]];
      }
      assert ms[..j + 1][..j] == ms[..j];
      j := j + 1;
    }
    assert ms[..j] == ms;
  }

  /** The overrides of every virtual match among the first `n` results, in order. */
  function VirtualOverrides(refs: seq<XrefSearchResult>, n: nat, overrides: string -> Result<seq<XrefSearchResult>>)
    : Result<seq<XrefSearchResult>>
    requires n <= |refs|
  {
    if n == 0 then Ok([])
    else
      var before :- VirtualOverrides(refs, n - 1, overrides);
      var these :- VirtualOverridesOf(refs[n - 1].matches, |refs[n - 1].matches|, overrides);
      Ok(before + these)
  }

  /** Once a prefix fails, every longer prefix fails with the same error. */
  lemma {:induction false} VirtualOverridesFails(refs: seq<XrefSearchResult>, i: nat, n: nat,
                                                    overrides: string -> Result<seq<XrefSearchResult>>)
    requires i <= n <= |refs| && VirtualOverrides(refs, i, overrides).Err?
    ensures VirtualOverrides(refs, n, overrides) == VirtualOverrides(refs, i, overrides)
  {
    if n > i {
      VirtualOverridesFails(refs, i, n - 1, overrides);
    }
  }

  lemma {:induction false} VirtualOverridesOfFails(matches: seq<XrefSingleMatch>, j: nat, n: nat,
                                                      overrides: string -> Result<seq<XrefSearchResult>>)
    requires j <= n <= |matches| && VirtualOverridesOf(matches, j, overrides).Err?
    ensures VirtualOverridesOf(matches, n, overrides) == VirtualOverridesOf(matches, j, overrides)
  {
    if n > j {
      VirtualOverridesOfFails(matches, j, n - 1, overrides);
    }
  }

  /** The overrides of every virtual match among the first `n` matches, in order. */
  function VirtualOverridesOf(matches: seq<XrefSingleMatch>, n: nat, overrides: string -> Result<seq<XrefSearchResult>>)
    : Result<seq<XrefSearchResult>>
    requires n <= |matches|
  {
    if n == 0 then Ok([])
    else
      var before :- VirtualOverridesOf(matches, n - 1, overrides);
      var these :- OverridesOfMatch(matches[n - 1], overrides);
      Ok(before + these)
  }

  /** What one match contributes: the overriding definitions of a virtual match, nothing for any other. */
  function OverridesOfMatch(m: XrefSingleMatch, overrides: string -> Result<seq<XrefSearchResult>>)
    : Result<seq<XrefSearchResult>>
  {
    if HasFlag(m.grokModifiers, "virtual") then overrides(m.signature) else Ok([])
  }

  /** The kept matches are exactly the definition matches, in their order. */
  lemma {:induction false} DefinitionMatchesFilter(ms: seq<XrefSingleMatch>)
    ensures forall m :: m in DefinitionMatches(ms) <==> m in ms && HasFlag(m.grokModifiers, "definition")
  {
    if ms != [] {
      DefinitionMatchesFilter(ms[..|ms| - 1]);
      assert ms == ms[..|ms| - 1] + [ms[|ms| - 1]];
    }
  }

  /**
   * Every candidate keeps its file, has at least one match, and holds only
   * that result's definition matches.
   */
  lemma {:induction false} OverridingCandidatesAreDefinitions(refs: seq<XrefSearchResult>)
    ensures forall x | x in OverridingCandidates(refs) ::
              x.matches != [] && exists y :: y in refs && y.file == x.file && x.matches == DefinitionMatches(y.matches)
  {
    if refs != [] {
      OverridingCandidatesAreDefinitions(refs[..|refs| - 1]);
      assert forall y | y in refs[..|refs| - 1] :: y in refs;
      assert refs[|refs| - 1] in refs;
    }
  }

  /** The search results read out of a clean reply carry no modifiers. */
  lemma CleanReplyResults(resp: Value)
    requires CompoundClean(resp)
    ensures XrefResultsFrom(resp).Ok? ==>
              forall x, m | x in XrefResultsFrom(resp).value && m in x.matches :: m.grokModifiers.None?
  {
    if XrefResultsFrom(resp).Ok? {
      var r0 := FirstOf(resp, "xref_search_response").value;
      if Attr(r0, "search_result").Ok? {
        var items := Attr(resp, "xref_search_response").value.items;
        assert items[0] in items;
        CleanResponseResults(r0);
      }
    }
  }

  /** Without `grok_modifiers` no match is virtual, so the first `n` results have no overrides to ask for. */
  lemma {:induction false} NoModifiersNotVirtual(refs: seq<XrefSearchResult>, n: nat,
                                                    overrides: string -> Result<seq<XrefSearchResult>>)
    requires n <= |refs|
    requires forall x, m | x in refs && m in x.matches :: m.grokModifiers.None?
    ensures VirtualOverrides(refs, n, overrides) == Ok([])
  {
    if n > 0 {
      NoModifiersNotVirtual(refs, n - 1, overrides);
      var ms := refs[n - 1].matches;
      assert refs[n - 1] in refs;
      NoModifiersNotVirtualOf(ms, |ms|, overrides);
      var none: seq<XrefSearchResult> := [];
      assert none + none == none;
    }
  }

  lemma {:induction false} NoModifiersNotVirtualOf(ms: seq<XrefSingleMatch>, n: nat,
                                                      overrides: string -> Result<seq<XrefSearchResult>>)
    requires n <= |ms|
    requires forall m | m in ms :: m.grokModifiers.None?
    ensures VirtualOverridesOf(ms, n, overrides) == Ok([])
  {
    if n > 0 {
      NoModifiersNotVirtualOf(ms, n - 1, overrides);
      assert ms[n - 1] in ms;
      var none: seq<XrefSearchResult> := [];
      assert OverridesOfMatch(ms[n - 1], overrides) == Ok(none);
      assert none + none == none;
    }
  }

  /** Matches without `grok_modifiers` are never definitions, so no result survives. */
  lemma {:induction false} NoModifiersNoOverrides(refs: seq<XrefSearchResult>)
    requires forall x, m | x in refs && m in x.matches :: m.grokModifiers.None?
    ensures OverridingCandidates(refs) == []
  {
    if refs != [] {
      var last := refs[|refs| - 1];
      assert refs[..|refs| - 1] == refs[..|refs| - 1];
      assert forall x | x in refs[..|refs| - 1] :: x in refs;
      NoModifiersNoOverrides(refs[..|refs| - 1]);
      NoModifiersNoDefinitions(last.matches);
    }
  }

  lemma {:induction false} NoModifiersNoDefinitions(ms: seq<XrefSingleMatch>)
    requires forall m | m in ms :: m.grokModifiers.None?
    ensures DefinitionMatches(ms) == []
  {
    if ms != [] {
      assert forall m | m in ms[..|ms| - 1] :: m in ms;
      NoModifiersNoDefinitions(ms[..|ms| - 1]);
    }
  }

  // ---------------------------------------------------------------------------
  // Comparing a buffer with the server's copy

  /**
   * With `checkPrefix`, stale iff the server has fewer lines than the buffer
   * or differs within the buffer's length; without it, stale iff the two
   * differ at some position both have.
   */
  predicate Stale(contentLines: seq<string>, bufferLines: seq<string>, checkPrefix: bool)
  {
    if checkPrefix then
      |contentLines| < |bufferLines| ||
      exists i :: 0 <= i < |bufferLines| && contentLines[i] != bufferLines[i]
    else
      exists i :: 0 <= i < |contentLines| && i < |bufferLines| && contentLines[i] != bufferLines[i]
  }

  /** The comparison of `IsContentStale`: truncate to the buffer's length when checking a prefix, then compare pairwise. */
  method ContentDiffers(contentLines: seq<string>, bufferLines: seq<string>, checkPrefix: bool) returns (stale: bool)
    ensures stale == Stale(contentLines, bufferLines, checkPrefix)
  {
    var content := contentLines;
    if checkPrefix {
      content := SliceTo(contentLines, |bufferLines|);
      if |content| != |bufferLines| {
        return true;
      }
    }
    var i := 0;
    while i < |content| && i < |bufferLines|
      invariant 0 <= i <= |content| && i <= |bufferLines|
      invariant forall j :: 0 <= j < i ==> content[j] == bufferLines[j]
    {
      if content[i] != bufferLines[i] {
        assert content[i] == contentLines[i];
        return true;
      }
      i := i + 1;
    }
    if checkPrefix {
      assert forall j :: 0 <= j < |bufferLines| ==> contentLines[j] == content[j];
    }
    return false;
  }

  /** A buffer that is a prefix of the server's lines is stale in neither mode. */
  lemma PrefixIsFresh(contentLines: seq<string>, bufferLines: seq<string>, checkPrefix: bool)
    requires bufferLines <= contentLines
    ensures !Stale(contentLines, bufferLines, checkPrefix)
  {
  }

  /** A longer buffer is stale when checking a prefix, and not necessarily otherwise. */
  lemma LongerBufferStaleOnlyWithPrefix(contentLines: seq<string>, extra: string)
    ensures Stale(contentLines, contentLines + [extra], true)
    ensures !Stale(contentLines, contentLines + [extra], false)
  {
  }

  // ---------------------------------------------------------------------------
  // First-match scans over a file's annotations

  /** The cross-reference signature of the first annotation whose range contains the position. */
  function SignatureAt(annotations: seq<Annotation>, line: int, column: int): (r: Result<string>)
    ensures r.Ok? <==> exists i :: 0 <= i < |annotations| && annotations[i].range.Contains(line, column)
  {
    if annotations == [] then Err(Failure("can't determine signature"))
    else if annotations[0].range.Contains(line, column) then Ok(annotations[0].xrefSignature.signature)
    else
      var r := SignatureAt(annotations[1..], line, column);
      assert forall i :: 1 <= i < |annotations| ==> annotations[i] == annotations[1..][i - 1];
      r
  }

  /** The loop of `GetSignatureForLocation`. */
  method SignatureForLocationIn(annotations: seq<Annotation>, line: int, column: int) returns (r: Result<string>)
    ensures r.Ok? ==> exists i :: 0 <= i < |annotations| && annotations[i].range.Contains(line, column) &&
                        r.value == annotations[i].xrefSignature.signature &&
                        forall j :: 0 <= j < i ==> !annotations[j].range.Contains(line, column)
    ensures r.Err? <==> forall i :: 0 <= i < |annotations| ==> !annotations[i].range.Contains(line, column)
    ensures r == SignatureAt(annotations, line, column)
  {
    var i := 0;
    while i < |annotations|
      invariant 0 <= i <= |annotations|
      invariant forall j :: 0 <= j < i ==> !annotations[j].range.Contains(line, column)
      invariant SignatureAt(annotations, line, column) == SignatureAt(annotations[i..], line, column)
    {
      if annotations[i].range.Contains(line, column) {
        return Ok(annotations[i].xrefSignature.signature);
      }
      assert annotations[i..][1..] == annotations[i + 1..];
      i := i + 1;
    }
    return Err(Failure("can't determine signature"));
  }

  /** The first cross-reference signature that contains `symbol(`. */
  function SignatureFor(annotations: seq<Annotation>, symbol: string): (r: Result<string>)
    ensures r.Ok? ==> IsSubstring(symbol + "(", r.value)
  {
    if annotations == [] then Err(Failure("can't determine signature"))
    else if IsSubstring(symbol + "(", annotations[0].xrefSignature.signature) then
      Ok(annotations[0].xrefSignature.signature)
    else SignatureFor(annotations[1..], symbol)
  }

  /** The loop of `GetSignatureForSymbol`. */
  method SignatureForSymbolIn(annotations: seq<Annotation>, symbol: string) returns (r: Result<string>)
    ensures r.Ok? ==> exists i :: 0 <= i < |annotations| && r.value == annotations[i].xrefSignature.signature &&
                        IsSubstring(symbol + "(", r.value) &&
                        forall j :: 0 <= j < i ==> !IsSubstring(symbol + "(", annotations[j].xrefSignature.signature)
    ensures r.Err? <==> forall i :: 0 <= i < |annotations| ==> !IsSubstring(symbol + "(", annotations[i].xrefSignature.signature)
    ensures r == SignatureFor(annotations, symbol)
  {
    var i := 0;
    while i < |annotations|
      invariant 0 <= i <= |annotations|
      invariant forall j :: 0 <= j < i ==> !IsSubstring(symbol + "(", annotations[j].xrefSignature.signature)
      invariant SignatureFor(annotations, symbol) == SignatureFor(annotations[i..], symbol)
    {
      var signature := annotations[i].xrefSignature.signature;
      if IsSubstring(symbol + "(", signature) {
        return Ok(signature);
      }
      assert annotations[i..][1..] == annotations[i + 1..];
      i := i + 1;
    }
    return Err(Failure("can't determine signature"));
  }

  // ---------------------------------------------------------------------------
  // Files

  /** A file known to the server: its lines, and its annotations once fetched. */
  class CsFile {
    const cs: CodeSearch
    const info: FileInfo
    const lines: seq<string>
    /** `self.annotations`: None until the first fetch. */
    var annotations: Option<seq<Annotation>>

    constructor(cs: CodeSearch, info: FileInfo)
      ensures this.cs == cs && this.info == info
      ensures lines == SplitLines(info.text) && annotations.None?
    {
      this.cs := cs;
      this.info := info;
      this.lines := SplitLines(info.text);
      annotations := None;
    }

    function GetFileSpec(): FileSpec
    {
      FileSpec(info.name, info.packageName, "")
    }

    /**
     * `Text(range)`: the text of a range of this file, lines joined by a
     * single newline; IndexError when a line bound lies outside the file or
     * the range runs backwards.
     */
    function Text(range: TextRange): (r: Result<string>)
      ensures r.Err? <==> range.startLine <= 0 || range.startLine > |lines| ||
                          range.endLine <= 0 || range.endLine > |lines| || range.startLine > range.endLine
      ensures r.Err? ==> r.error == IndexError
    {
      if range.startLine <= 0 || range.startLine > |lines| || range.endLine <= 0 || range.endLine > |lines| ||
         range.startLine > range.endLine then
        Err(IndexError)
      else if range.startLine == range.endLine then
        Ok(Slice(lines[range.startLine - 1], range.startColumn - 1, range.endColumn))
      else
        var first := [SliceFrom(lines[range.startLine - 1], range.startColumn - 1)];
        var middle := lines[range.startLine..range.endLine - 1];
        var end := [SliceTo(lines[range.endLine - 1], range.endColumn)];
        Ok(Join("\n", first + middle + end))
    }

    /**
     * `GetAnnotations`: the first call asks the server and keeps the list,
     * later calls return it with no request. An empty list is kept and
     * then raises IndexError on the check of its first element.
     */
    method GetAnnotations() returns (r: Result<seq<Annotation>>)
      requires cs.Valid()
      modifies this, cs
      ensures cs.Valid() && cs.fileInfoCache == old(cs.fileInfoCache)
      ensures old(annotations).Some? ==> r == Ok(old(annotations).value) && annotations == old(annotations) &&
                                         cs.Retrievals() == old(cs.Retrievals())
      ensures old(annotations).None? ==>
                var fetched := cs.AnnotationsFor(GetFileSpec());
                cs.Retrievals() <= old(cs.Retrievals()) + 1 &&
                (fetched.Ok? ==> annotations == Some(fetched.value) &&
                                 r == if fetched.value == [] then Err(IndexError) else fetched) &&
                (fetched.Err? ==> annotations.None? && r == fetched)
      ensures r.Ok? ==> annotations == Some(r.value)
    {
      if annotations.Some? {
        return Ok(annotations.value);
      }
      var response := cs.GetAnnotationsForFile(Spec(GetFileSpec()));
      var fetched := if response.Ok? then AnnotationsFrom(response.value) else Err(response.error);
      if fetched.Err? {
        return fetched;
      }
      assert fetched == cs.AnnotationsFor(GetFileSpec());
      annotations := Some(fetched.value);
      forall k | k in cs.fileInfoCache
        ensures cs.CachedFile(k, cs.fileInfoCache[k])
      {
        assert old(cs.CachedFile(k, cs.fileInfoCache[k]));
      }
      if fetched.value == [] {
        return Err(IndexError);
      }
      return fetched;
    }

    /** The text of the first annotation whose cross-reference signature is `signature`. */
    function AnchorText(annotations: seq<Annotation>, signature: string): (r: Result<string>)
      ensures r.Err? ==> r.error == IndexError || r.error == Failure("can't determine display name for " + signature)
    {
      if annotations == [] then Err(Failure("can't determine display name for " + signature))
      else if annotations[0].xrefSignature.signature == signature then Text(annotations[0].range)
      else AnchorText(annotations[1..], signature)
    }

    /**
     * With `i` the position of the first annotation carrying `signature`, or
     * the length when none does, `AnchorText` is that annotation's text, or
     * the display-name failure.
     */
    lemma {:induction false} AnchorTextIsFirstMatch(annotations: seq<Annotation>, signature: string, i: nat)
      requires i <= |annotations|
      requires forall j | 0 <= j < i :: annotations[j].xrefSignature.signature != signature
      requires i < |annotations| ==> annotations[i].xrefSignature.signature == signature
      ensures AnchorText(annotations, signature) ==
                if i < |annotations| then Text(annotations[i].range)
                else Err(Failure("can't determine display name for " + signature))
    {
      if i > 0 {
        assert annotations[0].xrefSignature.signature != signature;
        AnchorTextIsFirstMatch(annotations[1..], signature, i - 1);
      }
    }

    /**
     * `GetAnchorText`: fetch the annotations if need be, then the text of the
     * first matching one; a fetch error, or the IndexError on an empty first
     * fetch, comes back as it is.
     */
    method GetAnchorText(signature: string) returns (r: Result<string>)
      requires cs.Valid()
      modifies this, cs
      ensures cs.Valid() && cs.fileInfoCache == old(cs.fileInfoCache)
      ensures old(annotations).Some? ==> r == AnchorText(old(annotations).value, signature)
      ensures old(annotations).None? ==>
                var fetched := cs.AnnotationsFor(GetFileSpec());
                r == if fetched.Err? then Err(fetched.error)
                     else if fetched.value == [] then Err(IndexError)
                     else AnchorText(fetched.value, signature)
      ensures r.Ok? ==> annotations.Some? && r == AnchorText(annotations.value, signature)
    {
      var all :- GetAnnotations();
      var i := 0;
      while i < |all|
        invariant 0 <= i <= |all|
        invariant AnchorText(all, signature) == AnchorText(all[i..], signature)
      {
        if all[i].xrefSignature.signature == signature {
          return Text(all[i].range);
        }
        assert all[i..][1..] == all[i + 1..];
        i := i + 1;
      }
      return Err(Failure("can't determine display name for " + signature));
    }
  }

  /** A range covering whole lines gives back those lines joined by newlines. */
  lemma TextOfWholeLines(f: CsFile, s: int, e: int)
    requires 1 <= s <= e <= |f.lines|
    ensures f.Text(TextRange(s, 1, e, |f.lines[e - 1]|)) == Ok(Join("\n", f.lines[s - 1..e]))
  {
    var range := TextRange(s, 1, e, |f.lines[e - 1]|);
    if s == e {
      assert f.lines[s - 1..e] == [f.lines[s - 1]];
      assert f.lines[s - 1][0..|f.lines[s - 1]|] == f.lines[s - 1];
    } else {
      assert SliceFrom(f.lines[s - 1], 0) == f.lines[s - 1];
      assert SliceTo(f.lines[e - 1], |f.lines[e - 1]|) == f.lines[e - 1];
      assert [f.lines[s - 1]] + f.lines[s..e - 1] + [f.lines[e - 1]] == f.lines[s - 1..e];
    }
  }

  // ---------------------------------------------------------------------------
  // Cross-reference nodes

  /** A node of the cross-reference graph: a match, the file it is in when known, and the node it was reached from. */
  datatype XrefNode = XrefNode(filespec: Option<FileSpec>, singleMatch: XrefSingleMatch, parent: Option<XrefNode>)
  {
    /** `GetEdges`: the nodes of the matching cross-references, with this node as their parent. */
    method GetEdges(cs: CodeSearch, edgeKinds: seq<int>, maxNumResults: int) returns (r: Result<seq<XrefNode>>)
      requires cs.Valid()
      modifies cs
      ensures cs.Valid() && cs.fileInfoCache == old(cs.fileInfoCache)
      ensures r == Edges(cs, this, edgeKinds, maxNumResults)
    {
      var results :- cs.GetXrefsFor(singleMatch.signature, edgeKinds, maxNumResults);
      if results == [] {
        return Ok([]);
      }
      var nodes := FromSearchResults(results, Some(this));
      return Ok(nodes);
    }

    /**
     * `GetRelatedAnnotations`: the annotations of this node's file whose
     * lines meet the lines of the annotation carrying this node's signature.
     */
    method GetRelatedAnnotations(cs: CodeSearch) returns (r: Result<seq<Annotation>>)
      requires cs.Valid()
      modifies cs, cs.Cached()
      ensures cs.Valid()
      ensures r.Ok? ==> filespec.Some? && filespec.value.name in cs.fileInfoCache &&
                        cs.fileInfoCache[filespec.value.name].annotations.Some? &&
                        r == RelatedAnnotations(cs.fileInfoCache[filespec.value.name].annotations.value,
                                                singleMatch.signature)
    {
      if filespec.None? {
        return Err(Failure("no filespec found for XrefNode"));
      }
      var file :- cs.GetFileInfo(Spec(filespec.value), PlainFetch);
      var annotations :- file.GetAnnotations();
      r := RelatedAnnotationsIn(annotations, singleMatch.signature);
    }

    /**
     * `GetRelatedDefinitions`: for each link annotation on the lines of this
     * node's annotation, its first definition, or the link's own node.
     */
    method GetRelatedDefinitions(cs: CodeSearch) returns (r: Result<seq<XrefNode>>)
      requires cs.Valid()
      modifies cs, cs.Cached()
      ensures cs.Valid()
      ensures r.Ok? ==> filespec.Some? && filespec.value.name in cs.fileInfoCache &&
                        cs.fileInfoCache[filespec.value.name].annotations.Some? &&
                        r == RelatedDefinitions(cs, cs.fileInfoCache[filespec.value.name].annotations.value,
                                                singleMatch.signature, DefinitionEdges(cs))
    {
      if filespec.None? {
        return Err(Failure("no filespec found for XrefNode"));
      }
      var name := filespec.value.name;
      assert cs.GetFileSpec(Spec(filespec.value)).name == name;
      var file :- cs.GetFileInfo(Spec(filespec.value), PlainFetch);
      assert name in cs.fileInfoCache && cs.fileInfoCache[name] == file;
      var annotations :- file.GetAnnotations();
      assert file.annotations == Some(annotations);
      r := RelatedDefinitionsIn(cs, annotations, singleMatch.signature, DefinitionEdges(cs));
    }
  }

  /** The nodes `GetEdges` returns. */
  function Edges(cs: CodeSearch, node: XrefNode, edgeKinds: seq<int>, maxNumResults: int): (r: Result<seq<XrefNode>>)
    ensures r.Ok? ==> forall x | x in r.value :: x.parent == Some(node)
  {
    var results :- cs.XrefsFor(node.singleMatch.signature, edgeKinds, maxNumResults);
    SearchNodesParent(results, Some(node));
    Ok(SearchNodes(results, Some(node)))
  }

  /** `XrefNode.FromSignature`: a node with only a signature, in the given file if any. */
  function FromSignature(cs: CodeSearch, signature: string, filename: FileArg): (r: XrefNode)
    ensures r.singleMatch.signature == signature && r.parent.None?
    ensures r.filespec.Some? <==> filename.Given()
  {
    XrefNode(if filename.Given() then Some(cs.GetFileSpec(filename)) else None, MatchFor(signature), None)
  }

  /** `XrefNode.FromAnnotation`: the node a LINK_TO_DEFINITION annotation points at. */
  function FromAnnotation(cs: CodeSearch, a: Annotation): (r: Result<XrefNode>)
    ensures r.Ok? <==> a.typeId == Protocol.LINK_TO_DEFINITION
    ensures r.Ok? ==> r.value.singleMatch.signature == a.internalLink.signature &&
                      r.value.filespec == Some(FileSpec(a.internalLink.path, a.internalLink.packageName, "")) &&
                      r.value.parent.None?
  {
    if a.typeId != Protocol.LINK_TO_DEFINITION then Err(AssertionError)
    else Ok(FromSignature(cs, a.internalLink.signature,
                          Spec(FileSpec(a.internalLink.path, a.internalLink.packageName, ""))))
  }

  /** The nodes of one search result: one per match, in order. */
  function ResultNodes(result: XrefSearchResult, parent: Option<XrefNode>): (r: seq<XrefNode>)
    ensures |r| == |result.matches|
    ensures forall j :: 0 <= j < |r| ==> r[j] == XrefNode(Some(result.file), result.matches[j], parent)
  {
    seq(|result.matches|, j requires 0 <= j < |result.matches| => XrefNode(Some(result.file), result.matches[j], parent))
  }

  /** The nodes of all search results, result by result. */
  function SearchNodes(results: seq<XrefSearchResult>, parent: Option<XrefNode>): seq<XrefNode>
  {
    if results == [] then []
    else SearchNodes(results[..|results| - 1], parent) + ResultNodes(results[|results| - 1], parent)
  }

  /** The number of matches over all results. */
  function TotalMatches(results: seq<XrefSearchResult>): nat
  {
    if results == [] then 0 else TotalMatches(results[..|results| - 1]) + |results[|results| - 1].matches|
  }

  /**
   * The `j`-th match of the `i`-th result is the node at the number of
   * matches before it, and there is one node per match.
   */
  lemma {:induction false} SearchNodesAt(results: seq<XrefSearchResult>, parent: Option<XrefNode>, i: nat, j: nat)
    requires i < |results| && j < |results[i].matches|
    ensures |SearchNodes(results, parent)| == TotalMatches(results)
    ensures TotalMatches(results[..i]) + j < TotalMatches(results)
    ensures SearchNodes(results, parent)[TotalMatches(results[..i]) + j] ==
            XrefNode(Some(results[i].file), results[i].matches[j], parent)
  {
    var n := |results| - 1;
    SearchNodesLength(results[..n], parent);
    if i < n {
      assert results[..n][..i] == results[..i];
      SearchNodesAt(results[..n], parent, i, j);
    } else {
      assert results[..n] == results[..i];
    }
  }

  lemma {:induction false} SearchNodesLength(results: seq<XrefSearchResult>, parent: Option<XrefNode>)
    ensures |SearchNodes(results, parent)| == TotalMatches(results)
  {
    if results != [] {
      SearchNodesLength(results[..|results| - 1], parent);
    }
  }

  /** Every node built from search results carries the given parent. */
  lemma {:induction false} SearchNodesParent(results: seq<XrefSearchResult>, parent: Option<XrefNode>)
    ensures forall x | x in SearchNodes(results, parent) :: x.parent == parent
  {
    if results != [] {
      SearchNodesParent(results[..|results| - 1], parent);
    }
  }

  /** `XrefNode.FromSearchResults`: one node per match, result by result, each with its result's file. */
  method FromSearchResults(results: seq<XrefSearchResult>, parent: Option<XrefNode>) returns (nodes: seq<XrefNode>)
    ensures nodes == SearchNodes(results, parent)
  {
    nodes := [];
    var i := 0;
    while i < |results|
      invariant 0 <= i <= |results|
      invariant nodes == SearchNodes(results[..i], parent)
    {
      var result := results[i];
      var j := 0;
      while j < |result.matches|
        invariant 0 <= j <= |result.matches|
        invariant nodes == SearchNodes(results[..i], parent) + ResultNodes(result, parent)[..j]
      {
        nodes := nodes + [XrefNode(Some(result.file), result.matches[j], parent)];
        j := j + 1;
      }
      assert ResultNodes(result, parent)[..j] == ResultNodes(result, parent);
      assert results[..i + 1][..i] == results[..i];
      i := i + 1;
    }
    assert results[..i] == results;
  }

  // ---------------------------------------------------------------------------
  // Related annotations and definitions

  /** The range of the first annotation whose cross-reference signature is `signature`. */
  function TargetRange(annotations: seq<Annotation>, signature: string): (r: Option<TextRange>)
    ensures r.Some? ==> exists i :: 0 <= i < |annotations| && annotations[i].xrefSignature.signature == signature &&
                                    r.value == annotations[i].range
    ensures r.None? <==> forall i :: 0 <= i < |annotations| ==> annotations[i].xrefSignature.signature != signature
  {
    if annotations == [] then None
    else if annotations[0].xrefSignature.signature == signature then Some(annotations[0].range)
    else
      var r := TargetRange(annotations[1..], signature);
      assert forall i :: 1 <= i < |annotations| ==> annotations[i] == annotations[1..][i - 1];
      r
  }

  /** Whether the line span of `a` meets the line span of `t`. */
  predicate LinesMeet(a: TextRange, t: TextRange)
  {
    !(a.endLine < t.startLine || a.startLine > t.endLine)
  }

  /** The first `n` annotations kept by the loop of `GetRelatedAnnotations`, in order. */
  function RelatedTo(annotations: seq<Annotation>, t: TextRange, n: nat): seq<Annotation>
    requires n <= |annotations|
  {
    if n == 0 then []
    else
      var a := annotations[n - 1];
      var init := RelatedTo(annotations, t, n - 1);
      if !LinesMeet(a.range, t) then init
      else if a.range.Eq(t) then init
      else init + [a]
  }

  function RelatedAnnotations(annotations: seq<Annotation>, signature: string): Result<seq<Annotation>>
  {
    match TargetRange(annotations, signature)
    case None => Err(Failure("no related annotations"))
    case Some(t) => Ok(RelatedTo(annotations, t, |annotations|))
  }

  /**
   * The related annotations are exactly those whose lines meet the target's
   * lines, in order: the equality exclusion never removes anything.
   */
  lemma {:induction false} RelatedAreLineNeighbours(annotations: seq<Annotation>, t: TextRange, n: nat)
    requires n <= |annotations|
    ensures var r := RelatedTo(annotations, t, n);
            forall a :: a in r <==> a in annotations[..n] && LinesMeet(a.range, t)
  {
    if n > 0 {
      RelatedAreLineNeighbours(annotations, t, n - 1);
      EqNeverHolds(annotations[n - 1].range, t);
      assert annotations[..n] == annotations[..n - 1] + [annotations[n - 1]];
    }
  }

  /** The loops of `GetRelatedAnnotations` over a fetched annotation list. */
  method RelatedAnnotationsIn(annotations: seq<Annotation>, signature: string) returns (r: Result<seq<Annotation>>)
    ensures r == RelatedAnnotations(annotations, signature)
  {
    var target: Option<TextRange> := None;
    var i := 0;
    while i < |annotations|
      invariant 0 <= i <= |annotations|
      invariant TargetRange(annotations, signature) == TargetRange(annotations[i..], signature)
    {
      if annotations[i].xrefSignature.signature == signature {
        target := Some(annotations[i].range);
        break;
      }
      assert annotations[i..][1..] == annotations[i + 1..];
      i := i + 1;
    }
    if target.None? {
      return Err(Failure("no related annotations"));
    }
    var t := target.value;
    var related: seq<Annotation> := [];
    i := 0;
    while i < |annotations|
      invariant 0 <= i <= |annotations|
      invariant related == RelatedTo(annotations, t, i)
    {
      var a := annotations[i];
      if a.range.endLine < t.startLine || a.range.startLine > t.endLine {
      } else if a.range.Eq(t) {
      } else {
        related := related + [a];
      }
      i := i + 1;
    }
    return Ok(related);
  }

  /** `GetEdges(HAS_DEFINITION)` of a node, as `GetRelatedDefinitions` asks it. */
  function DefinitionsOf(cs: CodeSearch, node: XrefNode): (r: Result<seq<XrefNode>>)
    ensures r.Ok? ==> forall x | x in r.value :: x.parent == Some(node)
  {
    Edges(cs, node, [Protocol.HAS_DEFINITION], 500)
  }

  /** `DefinitionsOf` as a function value. */
  function DefinitionEdges(cs: CodeSearch): (f: XrefNode -> Result<seq<XrefNode>>)
    ensures AnswersDefinitions(cs, f)
  {
    node => DefinitionsOf(cs, node)
  }

  /** `definitions` answers every node as its definition-edge query does. */
  ghost predicate AnswersDefinitions(cs: CodeSearch, definitions: XrefNode -> Result<seq<XrefNode>>)
  {
    forall node {:trigger DefinitionsOf(cs, node)} :: definitions(node) == DefinitionsOf(cs, node)
  }

  /** What the loop of `GetRelatedDefinitions` adds for one annotation. */
  function DefinitionFor(cs: CodeSearch, definitions: XrefNode -> Result<seq<XrefNode>>, a: Annotation, t: TextRange)
    : Result<seq<XrefNode>>
  {
    if a.typeId != Protocol.LINK_TO_DEFINITION || !LinesMeet(a.range, t) then Ok([])
    else
      var node :- FromAnnotation(cs, a);
      var defs :- definitions(node);
      Ok([if defs == [] then node else defs[0]])
  }

  /** The definitions of the first `n` annotations; the first failure ends the loop. */
  function DefinitionsFor(cs: CodeSearch, definitions: XrefNode -> Result<seq<XrefNode>>,
                          annotations: seq<Annotation>, t: TextRange, n: nat): Result<seq<XrefNode>>
    requires n <= |annotations|
  {
    if n == 0 then Ok([])
    else
      var init :- DefinitionsFor(cs, definitions, annotations, t, n - 1);
      var last :- DefinitionFor(cs, definitions, annotations[n - 1], t);
      Ok(init + last)
  }

  /** Once a prefix fails, every longer prefix fails with the same error. */
  lemma {:induction false} DefinitionsForFails(cs: CodeSearch, definitions: XrefNode -> Result<seq<XrefNode>>,
                                                annotations: seq<Annotation>, t: TextRange, i: nat, n: nat)
    requires i <= n <= |annotations| && DefinitionsFor(cs, definitions, annotations, t, i).Err?
    ensures DefinitionsFor(cs, definitions, annotations, t, n) == DefinitionsFor(cs, definitions, annotations, t, i)
  {
    if n > i {
      DefinitionsForFails(cs, definitions, annotations, t, i, n - 1);
    }
  }

  /** The results of `GetRelatedDefinitions` on a file's annotations. */
  function RelatedDefinitions(cs: CodeSearch, annotations: seq<Annotation>, signature: string,
                              definitions: XrefNode -> Result<seq<XrefNode>>): Result<seq<XrefNode>>
  {
    match TargetRange(annotations, signature)
    case None => Err(Failure("no related annotations"))
    case Some(t) => DefinitionsFor(cs, definitions, annotations, t, |annotations|)
  }

  /** The link annotations among the first `n` whose lines meet the target's lines. */
  function LinksNear(annotations: seq<Annotation>, t: TextRange, n: nat): seq<Annotation>
    requires n <= |annotations|
  {
    if n == 0 then []
    else
      var a := annotations[n - 1];
      var init := LinksNear(annotations, t, n - 1);
      if a.typeId == Protocol.LINK_TO_DEFINITION && LinesMeet(a.range, t) then init + [a] else init
  }

  /**
   * One result per nearby link annotation, in order: the node the link
   * points at when it has no definition edge, and otherwise a node reached
   * from it (its first definition).
   */
  lemma {:induction false} DefinitionsPerLink(cs: CodeSearch, annotations: seq<Annotation>, t: TextRange, n: nat)
    requires n <= |annotations|
    requires DefinitionsFor(cs, DefinitionEdges(cs), annotations, t, n).Ok?
    ensures var r := DefinitionsFor(cs, DefinitionEdges(cs), annotations, t, n).value;
            var links := LinksNear(annotations, t, n);
            |r| == |links| &&
            forall k :: 0 <= k < |r| ==>
              FromAnnotation(cs, links[k]).Ok? &&
              (r[k] == FromAnnotation(cs, links[k]).value || r[k].parent == Some(FromAnnotation(cs, links[k]).value))
  {
    if n > 0 {
      DefinitionsPerLink(cs, annotations, t, n - 1);
      var a := annotations[n - 1];
      if a.typeId == Protocol.LINK_TO_DEFINITION && LinesMeet(a.range, t) {
        var node := FromAnnotation(cs, a).value;
        var defs := DefinitionsOf(cs, node);
        assert DefinitionEdges(cs)(node) == defs;
        if defs.Ok? && defs.value != [] {
          assert defs.value[0] in defs.value;
        }
      }
    }
  }

  /** The body of the second loop of `GetRelatedDefinitions`, for one annotation. */
  method DefinitionForIn(cs: CodeSearch, a: Annotation, t: TextRange, ghost definitions: XrefNode -> Result<seq<XrefNode>>)
    returns (r: Result<seq<XrefNode>>)
    requires cs.Valid() && AnswersDefinitions(cs, definitions)
    modifies cs
    ensures cs.Valid() && cs.fileInfoCache == old(cs.fileInfoCache)
    ensures r == DefinitionFor(cs, definitions, a, t)
  {
    if a.typeId != Protocol.LINK_TO_DEFINITION {
      return Ok([]);
    }
    if a.range.endLine < t.startLine || a.range.startLine > t.endLine {
      return Ok([]);
    }
    var node := FromAnnotation(cs, a).value;
    var defs := node.GetEdges(cs, [Protocol.HAS_DEFINITION], 500);
    assert definitions(node) == defs by {
      assert defs == DefinitionsOf(cs, node);
    }
    if defs.Err? {
      return Err(defs.error);
    }
    if defs.value == [] {
      return Ok([node]);
    }
    return Ok([defs.value[0]]);
  }

  /** The loops of `GetRelatedDefinitions` over a fetched annotation list. */
  method RelatedDefinitionsIn(cs: CodeSearch, annotations: seq<Annotation>, signature: string,
                              ghost definitions: XrefNode -> Result<seq<XrefNode>>)
    returns (r: Result<seq<XrefNode>>)
    requires cs.Valid() && AnswersDefinitions(cs, definitions)
    modifies cs
    ensures cs.Valid() && cs.fileInfoCache == old(cs.fileInfoCache)
    ensures r == RelatedDefinitions(cs, annotations, signature, definitions)
  {
    var target: Option<TextRange> := None;
    var i := 0;
    while i < |annotations|
      invariant 0 <= i <= |annotations|
      invariant TargetRange(annotations, signature) == TargetRange(annotations[i..], signature)
    {
      if annotations[i].xrefSignature.signature == signature {
        target := Some(annotations[i].range);
        break;
      }
      assert annotations[i..][1..] == annotations[i + 1..];
      i := i + 1;
    }
    if target.None? {
      return Err(Failure("no related annotations"));
    }
    var t := target.value;
    var related: seq<XrefNode> := [];
    i := 0;
    while i < |annotations|
      invariant 0 <= i <= |annotations|
      invariant cs.Valid() && cs.fileInfoCache == old(cs.fileInfoCache)
      invariant DefinitionsFor(cs, definitions, annotations, t, i) == Ok(related)
    {
      var these := DefinitionForIn(cs, annotations[i], t, definitions);
      if these.Err? {
        DefinitionsForFails(cs, definitions, annotations, t, i + 1, |annotations|);
        return Err(these.error);
      }
      assert DefinitionsFor(cs, definitions, annotations, t, i + 1) == Ok(related + these.value);
      related := related + these.value;
      i := i + 1;
    }
    return Ok(related);
  }
}
