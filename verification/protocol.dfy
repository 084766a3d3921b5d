/**
 * The message classes of the Code Search JSON protocol: each record class's
 * `DESCRIPTOR` and the defaults its `__init__` assigns, and the enum classes
 * with the constants the client logic relies on.
 */
module Protocol {
  import opened Wrappers
  import opened Messages

  // ---------------------------------------------------------------------------
  // Enum constants

  const LINK_TO_DEFINITION: int := 0x00001
  const XREF_SIGNATURE: int := 0x00004
  const UNRESOLVED_TYPE: int := 0
  const ROOT: int := -1

  /** `AnnotationTypeValue`, every constant. */
  const AnnotationTypeValues: seq<Constant> := [
    Constant("BLAME", 0x00040), Constant("CODE_FINDINGS", 0x40000), Constant("COMPILER", 0x00080),
    Constant("COVERAGE", 0x00010), Constant("DEPRECATED", 0x02000), Constant("FINDBUGS", 0x00200),
    Constant("LANG_COUNT", 0x04000), Constant("LINK_TO_DEFINITION", LINK_TO_DEFINITION),
    Constant("LINK_TO_URL", 0x00002), Constant("LINT", 0x00020), Constant("OFFLINE_QUERIES", 0x08000),
    Constant("OVERRIDE", 0x01000), Constant("TOOLS", 0x20000), Constant("UNKNOWN", 0x00000),
    Constant("XREF_SIGNATURE", XREF_SIGNATURE)]

  /** `FileType`, every constant. */
  const FileTypes: seq<Constant> := [
    Constant("BINARY", 5), Constant("CODE", 1), Constant("DATA", 3), Constant("DIR", 4),
    Constant("DOC", 2), Constant("SYMLINK", 6), Constant("UNKNOWN", 0)]

  /** `KytheXrefKind`, every constant. */
  const KytheXrefKinds: seq<Constant> := [
    Constant("DEFINITION", 1), Constant("DECLARATION", 2), Constant("REFERENCE", 3),
    Constant("OVERRIDES", 4), Constant("OVERRIDDEN_BY", 5), Constant("EXTENDS", 6),
    Constant("EXTENDED_BY", 7), Constant("INSTANTIATION", 8), Constant("GENERATES", 10),
    Constant("GENERATED_BY", 11), Constant("ANNOTATES", 12), Constant("ANNOTATED_BY", 13),
    Constant("CALLS", -100), Constant("CALLED_BY", -101)]

  const HAS_DECLARATION: int := 3300
  const HAS_DEFINITION: int := 3500
  const OVERRIDDEN_BY: int := 800

  /** `EdgeEnumKind`, the three constants the client passes as edge filters. */
  const EdgeEnumKinds: seq<Constant> := [
    Constant("HAS_DECLARATION", HAS_DECLARATION), Constant("HAS_DEFINITION", HAS_DEFINITION),
    Constant("OVERRIDDEN_BY", OVERRIDDEN_BY)]

  // ---------------------------------------------------------------------------
  // Default instances, as the constructors build them with no arguments

  function Fields(fields: seq<Entry>): Init { Assigns(fields) }

  const EmptyStr: Value := Str("")
  const Zero: Value := Int(0)
  const False: Value := Bool(false)
  const NoItems: Value := List([])

  const TextRangeFields: seq<Entry> := [
    Entry("start_line", Zero), Entry("end_line", Zero), Entry("start_column", Zero), Entry("end_column", Zero)]
  const DefaultTextRange: Value := Obj("TextRange", TextRangeFields)

  const AnnotationTypeFields: seq<Entry> := [Entry("id", Int(0))]
  const DefaultAnnotationType: Value := Obj("AnnotationType", AnnotationTypeFields)

  const InternalLinkFields: seq<Entry> := [
    Entry("package_name", EmptyStr), Entry("highlight_signature", EmptyStr), Entry("signature", EmptyStr),
    Entry("signature_hash", EmptyStr), Entry("path", EmptyStr), Entry("range", DefaultTextRange)]
  const DefaultInternalLink: Value := Obj("InternalLink", InternalLinkFields)

  const XrefSignatureFields: seq<Entry> := [
    Entry("highlight_signature", EmptyStr), Entry("signature", EmptyStr), Entry("signature_hash", EmptyStr)]
  const DefaultXrefSignature: Value := Obj("XrefSignature", XrefSignatureFields)

  /** `xref_kind` is declared but never assigned, so an annotation never has it. */
  const AnnotationFields: seq<Entry> := [
    Entry("content", EmptyStr), Entry("file_name", EmptyStr), Entry("internal_link", DefaultInternalLink),
    Entry("is_implicit_target", False), Entry("kythe_xref_kind", Int(UNRESOLVED_TYPE)),
    Entry("range", DefaultTextRange), Entry("status", Zero), Entry("type", DefaultAnnotationType),
    Entry("url", EmptyStr), Entry("xref_signature", DefaultXrefSignature)]

  const FileSpecFields: seq<Entry> := [
    Entry("name", EmptyStr), Entry("package_name", EmptyStr), Entry("changelist", EmptyStr)]
  const DefaultFileSpec: Value := Obj("FileSpec", FileSpecFields)

  /** An enum class has no `__init__`: `FileType()` is an instance with no attributes. */
  function EnumInstance(cls: string): Value { Obj(cls, []) }

  const FormatRangeFields: seq<Entry> := [
    Entry("type", EnumInstance("FormatType")), Entry("range", DefaultTextRange), Entry("target", EmptyStr)]

  const AnnotatedTextFields: seq<Entry> := [Entry("text", EmptyStr), Entry("range", NoItems)]
  const DefaultAnnotatedText: Value := Obj("AnnotatedText", AnnotatedTextFields)

  const ModifierNames: seq<string> := [
    "_global", "_thread_local", "abstract", "anonymous", "autogenerated", "close_delimiter", "constexpr_",
    "declaration", "definition", "deprecated", "discrete", "dynamically_scoped", "exported", "file_scoped",
    "foreign", "getter", "has_figment", "immutable", "implicit", "inferred", "is_figment", "join_node",
    "library_scoped", "namespace_scoped", "nonescaped", "open_delimiter", "operator", "optional",
    "package_scoped", "parametric", "predeclared", "private", "protected", "public", "receiver", "register",
    "renamed", "repeated", "setter", "shadowing", "signed", "static", "strict_math", "synchronized",
    "terminal", "transient", "unsigned", "virtual", "volatile", "whitelisted"]
  const DefaultModifiers: Value := Obj("Modifiers", [])

  /** `type` defaults to the integer 0, not to an enum instance. */
  const CodeBlockFields: seq<Entry> := [
    Entry("child", NoItems), Entry("modifiers", DefaultModifiers), Entry("name", EmptyStr),
    Entry("name_prefix", EmptyStr), Entry("signature", EmptyStr), Entry("text_range", DefaultTextRange),
    Entry("type", Zero)]

  const GobInfoFields: seq<Entry> := [Entry("commit", EmptyStr), Entry("path", EmptyStr), Entry("repo", EmptyStr)]

  /** `revision_num` is declared but never assigned. */
  const FileInfoFields: seq<Entry> := [
    Entry("actual_name", EmptyStr), Entry("changelist_num", EmptyStr), Entry("codeblock", NoItems),
    Entry("content", DefaultAnnotatedText), Entry("converted_content", DefaultAnnotatedText),
    Entry("converted_lines", Zero), Entry("fold_ranges", NoItems), Entry("generated", False),
    Entry("generated_from", NoItems), Entry("gob_info", Obj("GobInfo", GobInfoFields)),
    Entry("html_text", EmptyStr), Entry("language", EmptyStr), Entry("license_path", EmptyStr),
    Entry("license_type", EmptyStr), Entry("lines", Zero), Entry("md5", EmptyStr),
    Entry("mime_type", EmptyStr), Entry("name", EmptyStr), Entry("package_name", EmptyStr),
    Entry("size", Zero), Entry("type", EnumInstance("FileType"))]

  const FileInfoResponseFields: seq<Entry> := [
    Entry("announcement", EmptyStr), Entry("error_message", EmptyStr),
    Entry("file_info", Obj("FileInfo", FileInfoFields)), Entry("return_code", Zero)]

  const FileInfoRequestFields: seq<Entry> := [
    Entry("file_spec", DefaultFileSpec), Entry("fetch_html_content", False), Entry("fetch_outline", False),
    Entry("fetch_folding", False), Entry("fetch_generated_from", False)]

  const AnnotationResponseFields: seq<Entry> := [
    Entry("annotation", NoItems), Entry("file", EmptyStr), Entry("max_findings_reached", False),
    Entry("return_code", Zero)]

  const AnnotationRequestFields: seq<Entry> := [
    Entry("file_spec", DefaultFileSpec), Entry("type", NoItems), Entry("md5", EmptyStr)]

  const MatchReasonFields: seq<Entry> := [
    Entry("blame", False), Entry("content", False), Entry("filename", False),
    Entry("filename_lineno", False), Entry("scoped_symbol", False)]

  const SnippetFields: seq<Entry> := [
    Entry("first_line_number", Zero), Entry("match_reason", Obj("MatchReason", MatchReasonFields)),
    Entry("scope", EmptyStr), Entry("text", DefaultAnnotatedText)]

  /** `node_kind` defaults to the `int` type object itself, which is modelled as None. */
  const NodeFields: seq<Entry> := [
    Entry("call_scope_range", DefaultTextRange), Entry("call_site_range", DefaultTextRange),
    Entry("children", NoItems), Entry("display_name", EmptyStr), Entry("edge_kind", EmptyStr),
    Entry("file_path", EmptyStr), Entry("identifier", EmptyStr), Entry("node_kind", Nil),
    Entry("override", False), Entry("package_name", EmptyStr), Entry("params", NoItems),
    Entry("signature", EmptyStr), Entry("snippet", Obj("Snippet", SnippetFields)),
    Entry("snippet_file_path", EmptyStr), Entry("snippet_package_name", EmptyStr)]

  const CallGraphResponseFields: seq<Entry> := [
    Entry("debug_message", EmptyStr), Entry("estimated_total_number_results", Zero),
    Entry("is_call_graph", False), Entry("is_from_kythe", False), Entry("kythe_next_page_token", EmptyStr),
    Entry("node", Obj("Node", NodeFields)), Entry("results_offset", Zero), Entry("return_code", Zero)]

  const CallGraphRequestFields: seq<Entry> := [
    Entry("file_spec", DefaultFileSpec), Entry("max_num_results", Int(100)), Entry("signature", EmptyStr)]

  const XrefTypeCountFields: seq<Entry> := [
    Entry("count", Zero), Entry("type", EmptyStr), Entry("type_id", EnumInstance("KytheXrefKind"))]

  /** `node_type` and `grok_modifiers` are declared but never assigned. */
  const XrefSingleMatchFields: seq<Entry> := [
    Entry("line_number", Zero), Entry("line_text", EmptyStr), Entry("type", EmptyStr),
    Entry("type_id", EnumInstance("KytheXrefKind")), Entry("signature", EmptyStr)]

  const XrefSearchResultFields: seq<Entry> := [Entry("file", DefaultFileSpec), Entry("match", NoItems)]

  const XrefSearchResponseFields: seq<Entry> := [
    Entry("eliminated_type_count", NoItems), Entry("estimated_total_type_count", NoItems),
    Entry("from_kythe", False), Entry("kythe_next_page_token", EmptyStr), Entry("search_result", NoItems),
    Entry("status", Zero), Entry("status_message", EmptyStr)]

  /** `edge_filter` is declared but never assigned. */
  const XrefSearchRequestFields: seq<Entry> := [
    Entry("file_spec", DefaultFileSpec), Entry("max_num_results", Int(100)), Entry("query", EmptyStr)]

  const CompoundResponseFields: seq<Entry> := [
    Entry("annotation_response", Nil), Entry("call_graph_response", Nil), Entry("dir_info_response", Nil),
    Entry("file_info_response", Nil), Entry("search_response", Nil), Entry("status_response", Nil),
    Entry("xref_search_response", Nil), Entry("elapsed_ms", Zero)]

  const CompoundRequestFields: seq<Entry> := [
    Entry("annotation_request", Nil), Entry("call_graph_request", Nil), Entry("dir_info_request", Nil),
    Entry("file_info_request", Nil), Entry("search_request", Nil), Entry("status_request", Nil),
    Entry("xref_search_request", Nil)]

  // ---------------------------------------------------------------------------
  // The class table

  /** A class whose `DESCRIPTOR` is a dict. */
  type RecordDecl = d: ClassDecl | d.Record? witness Record(map[], NoInit)

  /** A record class entry of the table. */
  function Rec(descriptor: map<string, FieldType>, init: Init): (d: RecordDecl)
    ensures d == Record(descriptor, init)
  {
    Record(descriptor, init)
  }

  /** A class whose `DESCRIPTOR` is `int`. */
  type EnumDecl = d: ClassDecl | d.Enum? witness Enum([])

  /** The enum classes, with the constants the client relies on. */
  const EnumClasses: map<string, EnumDecl> := map[
    "AnnotationTypeValue" := Enum(AnnotationTypeValues),
    "NodeEnumKind" := Enum([]),
    "KytheNodeKind" := Enum([Constant("UNRESOLVED_TYPE", UNRESOLVED_TYPE)]),
    "FormatType" := Enum([]),
    "FileType" := Enum(FileTypes),
    "CodeBlockType" := Enum([Constant("ROOT", ROOT)]),
    "EdgeEnumKind" := Enum(EdgeEnumKinds),
    "KytheXrefKind" := Enum(KytheXrefKinds)
  ]

  /** `Modifiers` declares one boolean per modifier name. */
  const ModifiersDescriptor: map<string, FieldType> := map n | n in ModifierNames :: BoolT

  /** Ranges, links, signatures and annotations. */
  const TextRecords: map<string, RecordDecl> := map[
    "AnnotationType" := Rec(map["id" := Class("AnnotationTypeValue")], Fields(AnnotationTypeFields)),
    "TextRange" := Rec(map["start_line" := IntT, "start_column" := IntT, "end_line" := IntT, "end_column" := IntT],
                          Fields(TextRangeFields)),
    "InternalLink" := Rec(map["package_name" := StrT, "highlight_signature" := StrT, "signature" := StrT,
                                 "signature_hash" := StrT, "path" := StrT, "range" := Class("TextRange")],
                             Fields(InternalLinkFields)),
    "XrefSignature" := Rec(map["highlight_signature" := StrT, "signature" := StrT, "signature_hash" := StrT],
                              Fields(XrefSignatureFields)),
    "Annotation" := Rec(map["content" := StrT, "file_name" := StrT, "internal_link" := Class("InternalLink"),
                               "is_implicit_target" := BoolT, "kythe_xref_kind" := Class("KytheNodeKind"),
                               "range" := Class("TextRange"), "status" := IntT, "type" := Class("AnnotationType"),
                               "url" := StrT, "xref_kind" := Class("NodeEnumKind"),
                               "xref_signature" := Class("XrefSignature")],
                           Fields(AnnotationFields))
  ]

  /** File specs, formatted text, code blocks and the file-info request and reply. */
  const FileRecords: map<string, RecordDecl> := map[
    "FileSpec" := Rec(map["name" := StrT, "package_name" := StrT, "changelist" := StrT], Fields(FileSpecFields)),
    "FormatRange" := Rec(map["type" := Class("FormatType"), "range" := Class("TextRange"), "target" := StrT],
                            Fields(FormatRangeFields)),
    "AnnotatedText" := Rec(map["text" := StrT, "range" := ListOf(Class("FormatRange"))], Fields(AnnotatedTextFields)),
    "Modifiers" := Rec(ModifiersDescriptor, KeepAll),
    "CodeBlock" := Rec(map["child" := ListOf(Parent), "modifiers" := Class("Modifiers"), "name" := StrT,
                              "name_prefix" := StrT, "signature" := StrT, "text_range" := Class("TextRange"),
                              "type" := Class("CodeBlockType")],
                          Fields(CodeBlockFields)),
    "GobInfo" := Rec(map["commit" := StrT, "path" := StrT, "repo" := StrT], Fields(GobInfoFields)),
    "FileInfo" := Rec(map["actual_name" := StrT, "changelist_num" := StrT, "codeblock" := ListOf(Class("CodeBlock")),
                             "content" := Class("AnnotatedText"), "converted_content" := Class("AnnotatedText"),
                             "converted_lines" := IntT, "fold_ranges" := ListOf(Class("TextRange")),
                             "generated" := BoolT, "generated_from" := ListOf(StrT), "gob_info" := Class("GobInfo"),
                             "html_text" := StrT, "language" := StrT, "license_path" := StrT,
                             "license_type" := StrT, "lines" := IntT, "md5" := StrT, "mime_type" := StrT,
                             "name" := StrT, "package_name" := StrT, "revision_num" := StrT, "size" := IntT,
                             "type" := Class("FileType")],
                         Fields(FileInfoFields)),
    "FileInfoResponse" := Rec(map["announcement" := StrT, "error_message" := StrT,
                                     "file_info" := Class("FileInfo"), "return_code" := IntT],
                                 Fields(FileInfoResponseFields)),
    "FileInfoRequest" := Rec(map["file_spec" := Class("FileSpec"), "fetch_html_content" := BoolT,
                                    "fetch_outline" := BoolT, "fetch_folding" := BoolT,
                                    "fetch_generated_from" := BoolT],
                                Fields(FileInfoRequestFields))
  ]

  /** The annotation request and reply, and the call-graph nodes. */
  const AnnotationRecords: map<string, RecordDecl> := map[
    "AnnotationResponse" := Rec(map["annotation" := ListOf(Class("Annotation")), "file" := StrT,
                                       "max_findings_reached" := BoolT, "return_code" := IntT],
                                   Fields(AnnotationResponseFields)),
    "AnnotationRequest" := Rec(map["file_spec" := Class("FileSpec"), "type" := ListOf(Class("AnnotationType")),
                                      "md5" := StrT],
                                  Fields(AnnotationRequestFields)),
    "MatchReason" := Rec(map["blame" := BoolT, "content" := BoolT, "filename" := BoolT,
                                "filename_lineno" := BoolT, "scoped_symbol" := BoolT],
                            Fields(MatchReasonFields)),
    "Snippet" := Rec(map["first_line_number" := IntT, "match_reason" := Class("MatchReason"), "scope" := StrT,
                            "text" := Class("AnnotatedText")],
                        Fields(SnippetFields)),
    "Node" := Rec(map["call_scope_range" := Class("TextRange"), "call_site_range" := Class("TextRange"),
                         "children" := ListOf(Parent), "display_name" := StrT, "edge_kind" := StrT,
                         "file_path" := StrT, "identifier" := StrT, "node_kind" := Class("KytheNodeKind"),
                         "override" := BoolT, "package_name" := StrT, "params" := ListOf(StrT),
                         "signature" := StrT, "snippet" := Class("Snippet"), "snippet_file_path" := StrT,
                         "snippet_package_name" := StrT],
                     Fields(NodeFields))
  ]

  /** The call-graph and cross-reference replies and the requests beside them. */
  const XrefRecords: map<string, RecordDecl> := map[
    "CallGraphResponse" := Rec(map["debug_message" := StrT, "estimated_total_number_results" := IntT,
                                      "is_call_graph" := BoolT, "is_from_kythe" := BoolT,
                                      "kythe_next_page_token" := StrT, "node" := Class("Node"),
                                      "results_offset" := IntT, "return_code" := IntT],
                                  Fields(CallGraphResponseFields)),
    "CallGraphRequest" := Rec(map["file_spec" := Class("FileSpec"), "max_num_results" := IntT, "signature" := StrT],
                                 Fields(CallGraphRequestFields)),
    "XrefTypeCount" := Rec(map["count" := IntT, "type" := StrT, "type_id" := Class("KytheXrefKind")],
                              Fields(XrefTypeCountFields)),
    "XrefSingleMatch" := Rec(XrefSingleMatchDescriptor, Fields(XrefSingleMatchFields)),
    "XrefSearchResult" := Rec(XrefSearchResultDescriptor, Fields(XrefSearchResultFields)),
    "XrefSearchResponse" := Rec(XrefSearchResponseDescriptor, Fields(XrefSearchResponseFields))
  ]

  /** The cross-reference search request and the compound request and reply. */
  const RequestRecords: map<string, RecordDecl> := map[
    "XrefSearchRequest" := Rec(XrefSearchRequestDescriptor, Fields(XrefSearchRequestFields)),
    "StatusRequest" := Rec(map[], NoInit),
    "CompoundResponse" := Rec(CompoundResponseDescriptor, Fields(CompoundResponseFields)),
    "CompoundRequest" := Rec(map["annotation_request" := ListOf(Class("AnnotationRequest")),
                                    "call_graph_request" := ListOf(Class("CallGraphRequest")),
                                    "dir_info_request" := ListOf(Class("DirInfoRequest")),
                                    "file_info_request" := ListOf(Class("FileInfoRequest")),
                                    "search_request" := ListOf(Class("SearchRequest")),
                                    "status_request" := ListOf(Class("StatusRequest")),
                                    "xref_search_request" := ListOf(Class("XrefSearchRequest"))],
                                Fields(CompoundRequestFields))
  ]

  // The descriptors of the cross-reference reply classes and of the request.

  const XrefSingleMatchDescriptor: map<string, FieldType> := map[
    "line_number" := IntT, "line_text" := StrT, "type" := StrT, "type_id" := Class("KytheXrefKind"),
    "node_type" := Class("NodeEnumKind"), "grok_modifiers" := Class("Modifiers"), "signature" := StrT]

  const XrefSearchResultDescriptor: map<string, FieldType> := map[
    "file" := Class("FileSpec"), "match" := ListOf(Class("XrefSingleMatch"))]

  const XrefSearchResponseDescriptor: map<string, FieldType> := map[
    "eliminated_type_count" := ListOf(Class("XrefTypeCount")),
    "estimated_total_type_count" := ListOf(Class("XrefTypeCount")), "from_kythe" := BoolT,
    "kythe_next_page_token" := StrT, "grok_total_number_of_results" := IntT,
    "search_result" := ListOf(Class("XrefSearchResult")), "status" := IntT, "status_message" := StrT]

  const CompoundResponseDescriptor: map<string, FieldType> := map[
    "annotation_response" := ListOf(Class("AnnotationResponse")),
    "call_graph_response" := ListOf(Class("CallGraphResponse")),
    "dir_info_response" := ListOf(Class("DirInfoResponse")),
    "file_info_response" := ListOf(Class("FileInfoResponse")),
    "search_response" := ListOf(Class("SearchResponse")), "status_response" := ListOf(Class("StatusResponse")),
    "xref_search_response" := ListOf(Class("XrefSearchResponse")), "elapsed_ms" := IntT]

  const XrefSearchRequestDescriptor: map<string, FieldType> := map[
    "edge_filter" := ListOf(Class("EdgeEnumKind")), "file_spec" := Class("FileSpec"), "max_num_results" := IntT,
    "query" := StrT]

  /** The record classes. */
  const RecordClasses: map<string, RecordDecl> :=
    TextRecords + FileRecords + AnnotationRecords + XrefRecords + RequestRecords

  /**
   * Every modelled class. The directory-listing and free-text search
   * classes are not part of this table, so coercing into them reports an
   * unmodelled class.
   */
  const Classes: Schema := EnumClasses + RecordClasses

  /** Only `Message` itself is untyped, and no enum class declares a name twice. */
  lemma ClassesWellFormed()
    ensures WellFormed(Classes)
  {
    EnumNamesDistinct();
    TablesWellFormed(EnumClasses, RecordClasses);
  }

  /** Records beside enums whose constants have distinct names make a well-formed schema. */
  lemma TablesWellFormed(enums: map<string, EnumDecl>, records: map<string, RecordDecl>)
    requires forall n | n in enums :: DistinctNames(enums[n].constants)
    ensures WellFormed(enums + records)
  {
    forall n | n in enums + records
      ensures (enums + records)[n].Untyped? ==> n == MessageClass
      ensures (enums + records)[n].Enum? ==> DistinctNames((enums + records)[n].constants)
    {
      UnionEntry(enums, records, n);
    }
  }

  /** A name of a union of two tables is looked up in the right one first. */
  lemma UnionEntry<K, V>(left: map<K, V>, right: map<K, V>, n: K)
    requires n in left + right
    ensures n in right ==> (left + right)[n] == right[n]
    ensures n !in right ==> n in left && (left + right)[n] == left[n]
  {
  }

  /** Each enum class names every constant once. */
  lemma EnumNamesDistinct()
    ensures forall n | n in EnumClasses :: DistinctNames(EnumClasses[n].constants)
  {
    AnnotationTypeNamesDistinct();
    XrefKindNamesDistinct();
    assert DistinctNames(FileTypes);
  }

  lemma AnnotationTypeNamesDistinct()
    ensures DistinctNames(AnnotationTypeValues)
  {
  }

  lemma XrefKindNamesDistinct()
    ensures DistinctNames(KytheXrefKinds)
  {
  }

  /** `cls(**kwargs)` for a record class whose `__init__` assigns `fields`. */
  function New(cls: string, fields: seq<Entry>, kwargs: seq<Entry>): (r: Value)
    ensures r.Obj? && r.cls == cls
    ensures Keys(r.attrs) == Keys(fields)
    ensures forall j :: 0 <= j < |fields| ==> r.attrs[j].val == GetOr(kwargs, fields[j].key, fields[j].val)
  {
    Construct(cls, Assigns(fields), kwargs).value
  }

  /**
   * Three declared fields that no constructor keeps: an `XrefSearchRequest`
   * never carries `edge_filter`, an `XrefSingleMatch` never carries
   * `grok_modifiers`, and every `Annotation` carries `xref_signature`.
   */
  lemma DroppedAndKeptFields(kwargs: seq<Entry>)
    ensures "edge_filter" !in Keys(New("XrefSearchRequest", XrefSearchRequestFields, kwargs).attrs)
    ensures "grok_modifiers" !in Keys(New("XrefSingleMatch", XrefSingleMatchFields, kwargs).attrs)
    ensures "xref_signature" in Keys(New("Annotation", AnnotationFields, kwargs).attrs)
  {
    assert Keys(XrefSearchRequestFields) == ["file_spec", "max_num_results", "query"];
    assert Keys(XrefSingleMatchFields) == ["line_number", "line_text", "type", "type_id", "signature"];
    assert Keys(AnnotationFields)[9] == "xref_signature";
  }

  /** `CallGraphRequest()` and `XrefSearchRequest()` ask for at most 100 results. */
  lemma RequestDefaults()
    ensures Get(New("CallGraphRequest", CallGraphRequestFields, []).attrs, "max_num_results") == Some(Int(100))
    ensures Get(New("XrefSearchRequest", XrefSearchRequestFields, []).attrs, "max_num_results") == Some(Int(100))
  {
    var c := New("CallGraphRequest", CallGraphRequestFields, []);
    assert c.attrs[1] == Entry("max_num_results", Int(100));
    var x := New("XrefSearchRequest", XrefSearchRequestFields, []);
    assert x.attrs[1] == Entry("max_num_results", Int(100));
  }

  /** The table's `XrefSearchRequest` is built by its `__init__`, which assigns no `edge_filter`. */
  lemma XrefSearchRequestInit()
    ensures "XrefSearchRequest" in Classes && Classes["XrefSearchRequest"].Record?
    ensures Classes["XrefSearchRequest"].init == Assigns(XrefSearchRequestFields)
    ensures "edge_filter" !in Keys(XrefSearchRequestFields)
  {
    RequestRecordsEntries();
    RequestRecordLookup("XrefSearchRequest");
    EdgeFilterUnassigned();
  }

  /** `XrefSearchRequest.__init__` assigns three fields, none of them `edge_filter`. */
  lemma EdgeFilterUnassigned()
    ensures "edge_filter" !in Keys(XrefSearchRequestFields)
  {
    assert Keys(XrefSearchRequestFields) == ["file_spec", "max_num_results", "query"];
  }

  /** The request records of the table that the client's proofs look up. */
  lemma RequestRecordsEntries()
    ensures "XrefSearchRequest" in RequestRecords
    ensures RequestRecords["XrefSearchRequest"] == Record(XrefSearchRequestDescriptor, Assigns(XrefSearchRequestFields))
    ensures "CompoundResponse" in RequestRecords
    ensures RequestRecords["CompoundResponse"] == Record(CompoundResponseDescriptor, Assigns(CompoundResponseFields))
  {
  }

  /** A request record is looked up in the table as itself. */
  lemma RequestRecordLookup(k: string)
    requires k in RequestRecords
    ensures k in Classes && Classes[k] == RequestRecords[k]
  {
    UnionEntry(TextRecords + FileRecords + AnnotationRecords + XrefRecords, RequestRecords, k);
    UnionEntry(EnumClasses, RecordClasses, k);
  }

  /** The table's entry for `XrefSingleMatch`. */
  lemma XrefSingleMatchEntry()
    ensures "XrefSingleMatch" in Classes
    ensures Classes["XrefSingleMatch"] == Record(XrefSingleMatchDescriptor, Assigns(XrefSingleMatchFields))
  {
    XrefRecordsEntries();
    XrefRecordLookup("XrefSingleMatch");
  }

  /** The table's entry for `XrefSearchResult`. */
  lemma XrefSearchResultEntry()
    ensures "XrefSearchResult" in Classes
    ensures Classes["XrefSearchResult"] == Record(XrefSearchResultDescriptor, Assigns(XrefSearchResultFields))
  {
    XrefRecordsEntries();
    XrefRecordLookup("XrefSearchResult");
  }

  /** The table's entry for `XrefSearchResponse`. */
  lemma XrefSearchResponseEntry()
    ensures "XrefSearchResponse" in Classes
    ensures Classes["XrefSearchResponse"] == Record(XrefSearchResponseDescriptor, Assigns(XrefSearchResponseFields))
  {
    XrefRecordsEntries();
    XrefRecordLookup("XrefSearchResponse");
  }

  /** The table's entry for `CompoundResponse`. */
  lemma CompoundResponseEntry()
    ensures "CompoundResponse" in Classes
    ensures Classes["CompoundResponse"] == Record(CompoundResponseDescriptor, Assigns(CompoundResponseFields))
  {
    RequestRecordsEntries();
    RequestRecordLookup("CompoundResponse");
  }

  /** The cross-reference reply records of the table. */
  lemma XrefRecordsEntries()
    ensures "XrefSingleMatch" in XrefRecords
    ensures XrefRecords["XrefSingleMatch"] == Record(XrefSingleMatchDescriptor, Assigns(XrefSingleMatchFields))
    ensures "XrefSearchResult" in XrefRecords
    ensures XrefRecords["XrefSearchResult"] == Record(XrefSearchResultDescriptor, Assigns(XrefSearchResultFields))
    ensures "XrefSearchResponse" in XrefRecords
    ensures XrefRecords["XrefSearchResponse"] == Record(XrefSearchResponseDescriptor, Assigns(XrefSearchResponseFields))
    ensures "XrefSingleMatch" !in RequestRecords && "XrefSearchResult" !in RequestRecords
    ensures "XrefSearchResponse" !in RequestRecords
  {
  }

  /** A cross-reference record is looked up in the table as itself. */
  lemma XrefRecordLookup(k: string)
    requires k in XrefRecords && k !in RequestRecords
    ensures k in Classes && Classes[k] == XrefRecords[k]
  {
    UnionEntry(TextRecords + FileRecords + AnnotationRecords, XrefRecords, k);
    UnionEntry(TextRecords + FileRecords + AnnotationRecords + XrefRecords, RequestRecords, k);
    UnionEntry(EnumClasses, RecordClasses, k);
  }

  /** `XrefSingleMatch.__init__` never assigns `grok_modifiers`. */
  lemma GrokModifiersUnassigned()
    ensures "grok_modifiers" !in Keys(XrefSingleMatchFields)
  {
    assert Keys(XrefSingleMatchFields) == ["line_number", "line_text", "type", "type_id", "signature"];
  }

  /** `XrefSearchResult.match` is a list of matches, empty by default. */
  lemma MatchField()
    ensures "match" in XrefSearchResultDescriptor && XrefSearchResultDescriptor["match"] == ListOf(Class("XrefSingleMatch"))
    ensures Get(XrefSearchResultFields, "match") == Some(NoItems)
  {
    GetAt(XrefSearchResultFields, "match", 1);
  }

  /** `XrefSearchResponse.search_result` is a list of results, empty by default. */
  lemma SearchResultField()
    ensures "search_result" in XrefSearchResponseDescriptor
    ensures XrefSearchResponseDescriptor["search_result"] == ListOf(Class("XrefSearchResult"))
    ensures Get(XrefSearchResponseFields, "search_result") == Some(NoItems)
  {
    GetAt(XrefSearchResponseFields, "search_result", 4);
  }

  /** `CompoundResponse.xref_search_response` is a list of responses, None by default. */
  lemma XrefSearchResponseField()
    ensures "xref_search_response" in CompoundResponseDescriptor
    ensures CompoundResponseDescriptor["xref_search_response"] == ListOf(Class("XrefSearchResponse"))
    ensures Get(CompoundResponseFields, "xref_search_response") == Some(Nil)
  {
    GetAt(CompoundResponseFields, "xref_search_response", 6);
  }
}
