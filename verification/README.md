# codesearch-py client core, modelled in Dafny

This project models the core of the Python Code Search client library
(`codesearch/messages.py`, `codesearch/client_api.py` and
`codesearch/language_utils.py`) and proves properties of it.

- **Message framework** (`messages.dfy`, module `Messages`). Python values are
  one `Value` datatype: None, bools, ints, strings, lists, insertion-ordered
  dicts and message instances. Instances carry their class name and their
  `__dict__`. Each class's `DESCRIPTOR` and the defaults its `__init__`
  assigns make up a `Schema`.
  - `Message.Coerce` is modelled branch by branch over these value kinds:
    lists, the parent marker, record classes, the untyped `Message`, enum
    classes and the builtin conversions. Floats are not among them (see
    "Left out").
  - So are `FromShallowDict`/`Make`, `IsEnum`, `ToSymbol` and `FromSymbol`.
- **Query strings** (`query_string.dfy`, module `QueryStrings`):
  - `Message.ToQueryString` and `Message.AsQueryString`, with the sort by
    attribute name.
  - The `md5` insertion of `AnnotationRequest.AsQueryString`.
  - Two imperative loops proved against these functions.
  - Proofs that every `b` marker is closed by its `e` marker, and that flat
    messages come out in key order.
- **Symbolized JSON encoder** (`json_encoder.dfy`, module `JsonEncoder`):
  `CodeSearchProtoJsonSymbolizedEncoder.default`.
- **Message table** (`protocol.dfy`, module `Protocol`): the record classes
  of the protocol, with their descriptors and `__init__` defaults, and the
  enum classes with the constants the client relies on. The table is proved
  well formed.
- **Replies** (`replies.dfy`, module `Replies`): a reply parsed from JSON
  holds no message instance, so every `XrefSingleMatch` in it is built by an
  `__init__` that drops `grok_modifiers`. `ReplyTable` names what this needs
  of a message table, and the protocol's table is proved to meet it. Hence
  `GetOverridingDefinitions` never returns a result, and `GetCallTargets`
  always falls back to the `HAS_DEFINITION` search.
- **Typed views** (`records.dfy`, module `Records`):
  - `TextRange`, `InternalLink`, `XrefSignature`, `Annotation`, `CodeBlock`,
    `FileSpec`, `FileInfo`, `XrefSingleMatch` and `XrefSearchResult`, with
    their methods.
  - Partial functions that read them out of a decoded reply.
- **Client session** (`client_api.dfy`, module `ClientApi`):
  - `CodeSearch` is a class. Its fields are the response cache, the
    `file_info_cache` and the hit/miss counters.
  - `CsFile` is a class whose `annotations` field is fetched lazily.
  - `XrefNode` is a datatype.
  - Every session method is proved against a specification function of the
    session state. Its loops are separate methods with invariants.
- **Identifier tokenizer** (`language_utils.dfy`, module `LanguageUtils`):
  `CppIdentifierTokens`, `MatchSymbolSuffix`, `SymbolSuffixMatcher` and
  `IsIdentifier`.
- **Test classes** (`test_classes.dfy`, module `TestClasses`): the classes
  declared by the message unit tests, and the coercions those tests check.

Support modules:

- `Wrappers` holds `Option` and `Result`. Python exceptions become `Err`
  values of an `Error` datatype.
- `PyStrings` covers the Python string behaviour the core relies on:
  - `str.split` with one separator or a character class;
  - `join` and `splitlines`;
  - slicing with negative and out-of-range indices;
  - `int()` and `str()` of integers;
  - lexicographic order;
  - the substring test.

The session's environment is made of constant parameters of `CodeSearch`:

- `network`: the server, answering an HTTP request with a reply text or an
  error;
- `decodeJson`: `json.loads`. The session requires it to yield only plain
  JSON: lists, dicts and primitives, never a message instance;
- `schema`: the message classes. A session on the protocol's table,
  `Protocol.Classes`, meets `ReplyTable` by `Replies.ProtocolReplyTable`;
- `urlEncode`: `urlencode(..., doseq=True)`;
- `relPath`: `os.path.relpath(os.path.abspath(p), source_root)`.

`CallGraphRequest.__init__` at `codesearch/messages.py:1152` has an
unbalanced `)`. The model reads it as the evidently intended default of 100.

## Model

| member | source | states |
|---|---|---|
| LanguageUtils.CppIdentifierTokens | codesearch/language_utils.py:9-30 | every token is non-empty and contains no character of `TOKEN_BOUNDARIES` |
| LanguageUtils.NonEmpty | codesearch/language_utils.py:30 | the `if token` filter keeps only non-empty pieces, each one of the input pieces, and never lengthens the list |
| LanguageUtils.NonEmptyAppend | codesearch/language_utils.py:30 | filtering distributes over concatenation |
| LanguageUtils.NonEmptyKeepsAll | codesearch/language_utils.py:30 | a list with no empty piece is kept whole |
| LanguageUtils.TokensOfWord | codesearch/language_utils.py:15-16 | a non-empty word without boundary characters is its own single token |
| LanguageUtils.TokensAround | codesearch/language_utils.py:24-28 | a boundary character splits the tokens of the two sides and adds nothing |
| LanguageUtils.TokensSeparated | codesearch/language_utils.py:18-22 | any non-empty run of boundary characters separates two strings' tokens |
| LanguageUtils.TokensEmptyIff | codesearch/language_utils.py:30 | there are no tokens iff every character is a boundary character |
| LanguageUtils.TokensOfJoin | codesearch/language_utils.py:21-22 | the tokens of boundary-free words joined by spaces are those words |
| LanguageUtils.TokensExample | codesearch/language_utils.py:18-19 | `abc::def` gives `["abc", "def"]` |
| LanguageUtils.SuffixMatches | codesearch/language_utils.py:57 | `haystack[-len(needle):] == needle`: both empty, or the needle is a non-empty suffix of the haystack |
| LanguageUtils.MatchSymbolSuffix | codesearch/language_utils.py:33-57 | true iff the needle's tokens are a non-empty suffix of the haystack's tokens, or both have no tokens |
| LanguageUtils.MatchSymbolSuffixReflexive | codesearch/language_utils.py:33-57 | every string matches itself |
| LanguageUtils.QualifiedNameMatches | codesearch/language_utils.py:37-38 | `scope::name` matches `name` |
| LanguageUtils.SeparatorSpellingIrrelevant | codesearch/language_utils.py:40-41 | `a::b` matches `a:b` and `a b` |
| LanguageUtils.DifferentScopeDoesNotMatch | codesearch/language_utils.py:43-44 | a different scope token does not match |
| LanguageUtils.LongerHaystackMatches | codesearch/language_utils.py:46-47 | extra leading tokens in the haystack still match |
| LanguageUtils.TrailingTokenDoesNotMatch | codesearch/language_utils.py:49-50 | an extra trailing token in the haystack does not match |
| LanguageUtils.NewSymbolSuffixMatcher | codesearch/language_utils.py:78-79 | the cached needle is a list of non-empty boundary-free tokens |
| LanguageUtils.SymbolSuffixMatcher.Match | codesearch/language_utils.py:81-82 | true iff the cached needle is a suffix of the haystack's tokens |
| LanguageUtils.MatcherAgrees | codesearch/language_utils.py:60-82 | the matcher answers exactly as `MatchSymbolSuffix` does, for every needle and haystack |
| LanguageUtils.IsIdentifier | codesearch/language_utils.py:85-97 | IndexError iff the input has no token; true iff the input is non-empty and has no boundary character |
| LanguageUtils.IsIdentifierExamples | codesearch/language_utils.py:88-95 | `abc` is an identifier; `abc ` and `abc:` are not |
| LanguageUtils.RejectsTrailingBoundary | codesearch/language_utils.py:91-95 | a word followed by any boundary character is not an identifier |
| LanguageUtils.IsIdentifierRaisesOnEmpty | codesearch/language_utils.py:97 | `""` and `"::"` raise IndexError |
| LanguageUtils.IsCppIdentifier | codesearch/language_utils.py:85-97 | total version: true iff non-empty and boundary-free; agrees with `IsIdentifier` wherever that returns |
| PyStrings.SplitOn | codesearch/language_utils.py:30 | `re.split` on a character class returns at least one piece |
| PyStrings.SplitOnPiecesFree | codesearch/language_utils.py:30 | no piece contains a separator |
| PyStrings.SplitOnNoSeparator | codesearch/language_utils.py:30 | a string without separators is its own single piece |
| PyStrings.SplitOnAround | codesearch/language_utils.py:30 | a separator splits the pieces of the two sides |
| PyStrings.SplitOnCount | codesearch/language_utils.py:30 | there is one more piece than there are separators |
| PyStrings.SplitJoin | codesearch/language_utils.py:30 | splitting separator-free pieces joined by a separator gives the pieces back |
| PyStrings.Split | codesearch/messages.py:377 | `str.split(' ')` returns at least one piece |
| PyStrings.JoinSplit | codesearch/client_api.py:607 | joining the pieces of `split(c)` with `c` gives the string back |
| PyStrings.FirstBreak | codesearch/client_api.py:42 | the first line-break position: no break before it, and a break at it when inside |
| PyStrings.SplitLines | codesearch/client_api.py:42 | no line of `splitlines()` contains a line-break character |
| PyStrings.SplitLinesIsSplit | codesearch/client_api.py:42 | for text with only `\n` breaks and no trailing newline, `splitlines()` equals `split('\n')` |
| PyStrings.Slice | codesearch/client_api.py:62-63 | Python slicing never lengthens a sequence |
| PyStrings.SliceFrom | codesearch/client_api.py:67 | `s[i:]` is the suffix from the normalised index |
| PyStrings.SliceTo | codesearch/client_api.py:70 | `s[:j]` is the prefix up to the normalised index |
| PyStrings.IndexOf | codesearch/messages.py:1016 | the first position holding the element (`list.index`, or the `?`/`#` that `urlparse` looks for), or the length when absent, with no earlier position holding it |
| PyStrings.IndexOfAt | codesearch/messages.py:1016 | a position holding the element with none before it is the position `IndexOf` finds |
| PyStrings.NatToString | codesearch/messages.py:129 | decimal digits only, no leading zero except for 0 |
| PyStrings.ParseInt | codesearch/messages.py:176 | a failing `int()` raises ValueError |
| PyStrings.DigitsValueOfNat | codesearch/messages.py:129 | the digits of `n` denote `n` |
| PyStrings.IntStringRoundTrip | codesearch/messages.py:129 | `int(str(i)) == i` for every integer |
| PyStrings.LexLeqTotal | codesearch/messages.py:106 | the order `sorted` uses on keys is total |
| PyStrings.LexLeqTransitive | codesearch/messages.py:106 | that order is transitive |
| PyStrings.LexLeqAntisymmetric | codesearch/messages.py:106 | that order is antisymmetric |
| Messages.ApplyDefaults | codesearch/messages.py:648-652 | `d.get(k, default)` for each assigned field: the fields' keys in order, each given value or else the default |
| Messages.Construct | codesearch/messages.py:159 | `cls(**kwargs)` gives an instance of `cls`; TypeError exactly when a class without `__init__` gets keyword arguments |
| Messages.PyInt | codesearch/messages.py:176 | `int()` keeps ints, maps bools to 0/1 and rejects None, lists, dicts and instances with TypeError |
| Messages.PyStr | codesearch/messages.py:174-176 | `str()` keeps strings and gives an integer's decimal text |
| Messages.LookupConstant | codesearch/messages.py:168-169 | `hasattr`/`getattr` on an enum class: None iff no constant has the name; otherwise the value of a constant with that name |
| Messages.CoerceEnum | codesearch/messages.py:167-173 | a string succeeds iff it names a constant, giving that constant's value, and otherwise raises "unrecognized symbolic enum value"; ints pass through `int()` |
| Messages.Coerce | codesearch/messages.py:131-176 | a successful coercion conforms to the target type: list of conforming items, instance of the class, enum integer, primitive |
| Messages.CoerceItems | codesearch/messages.py:133-137 | the list comprehension fails iff some element fails, with the first element's error; otherwise it has the same length and coerces each element in place |
| Messages.CoerceEntries | codesearch/messages.py:153-158 | the record loop fails iff some declared key fails; otherwise the keys are kept in order, declared keys coerced with the record as parent and others kept raw |
| Messages.FromShallowDict | codesearch/messages.py:195-201 | `FromShallowDict` and `Make` give a value conforming to the class |
| Messages.CoerceList | codesearch/messages.py:133-137 | a list target succeeds iff every element does, and keeps length and order |
| Messages.CoerceListNeedsList | codesearch/messages.py:133-134 | a non-list source for a list target is an AssertionError |
| Messages.CoerceParent | codesearch/messages.py:139-141 | the parent marker needs a parent class and then coerces into it |
| Messages.CoerceSameClass | codesearch/messages.py:144-145 | an instance of the target class is returned unchanged |
| Messages.CoerceIdempotent | codesearch/messages.py:131-176 | coercing a coerced value again gives the same result |
| Messages.CoerceRecord | codesearch/messages.py:147-159 | each assigned field of the new instance is the coerced source value for a declared key, the raw value for an undeclared key, and the default when the key is missing |
| Messages.CoerceRecordAttr | codesearch/messages.py:147-159 | one attribute of a coerced record: absent when `__init__` does not assign it, the default when the source lacks it, and the coerced source value when declared and present |
| Messages.GetAt | codesearch/messages.py:1325-1330 | `d.get(k)` is the entry at the first position with key `k` |
| Messages.CoerceKeepAll | codesearch/messages.py:837-839 | a class whose `__init__` stores all keyword arguments keeps every source key, in order |
| Messages.CoerceNoInit | codesearch/messages.py:159 | a class without `__init__` accepts exactly the empty dict |
| Messages.CoerceIntoEnum | codesearch/messages.py:167-173 | every declared name coerces to its value; an undeclared name raises ValueError; an int is kept |
| Messages.IsEnum | codesearch/messages.py:178-180 | a class is an enum iff its descriptor is not a dict |
| Messages.FirstEqual | codesearch/messages.py:185-187 | the first constant whose value equals `v`, with none before it; or none at all |
| Messages.ToSymbol | codesearch/messages.py:182-188 | AssertionError iff the class is a record; on an enum it gives `v` itself or a name |
| Messages.FromSymbol | codesearch/messages.py:190-193 | fails iff the class is not an enum or has no constant of that name; otherwise it gives that constant's value |
| Messages.SymbolRoundTrip | codesearch/messages.py:182-193 | for a declared value, `FromSymbol(ToSymbol(v)) == v` |
| Messages.SymbolRoundTripByName | codesearch/messages.py:182-193 | a name whose value no earlier constant has survives `ToSymbol(FromSymbol(name))` |
| Messages.ToSymbolUndeclared | codesearch/messages.py:188 | a value no constant equals is returned unchanged |
| QueryStrings.InsertByKey | codesearch/messages.py:106 | insertion keeps the list sorted by key and is a permutation of the list plus the new entry |
| QueryStrings.SortByKey | codesearch/messages.py:106 | `sorted(__dict__.items())` is sorted by key and is a permutation of the items |
| QueryStrings.SortedByKeyPairwise | codesearch/messages.py:106 | in a sorted list every earlier key is at most every later key |
| QueryStrings.ToQueryString | codesearch/messages.py:113-129 | None, `""` and `[]` give nothing; a bool gives `true`/`false`; an instance is framed by `(k,'b')` and `(k,'e')`; without nested instances every pair carries the key |
| QueryStrings.ListQuery | codesearch/messages.py:122-126 | a flat list gives pairs that all carry the key |
| QueryStrings.PrimitiveQuery | codesearch/messages.py:120-129 | a primitive gives at most one pair, under its key |
| QueryStrings.AnnotationRequestQuery | codesearch/messages.py:1012-1018 | with a truthy `md5` the generic pairs; without `md5` an AttributeError; with an empty one `('md5','')` goes right after the first `('file_spec','e')`, and ValueError when there is none |
| QueryStrings.MessageAsQueryString | codesearch/messages.py:103-108 | the loop computes the generic query string |
| QueryStrings.AnnotationRequestAsQueryString | codesearch/messages.py:1012-1018 | the loop and insertion compute the annotation request's query string |
| QueryStrings.BalancedWrap | codesearch/messages.py:119 | framing a balanced list with `b`/`e` keeps it balanced |
| QueryStrings.BalancedInsert | codesearch/messages.py:1016-1017 | inserting a non-marker pair keeps a list balanced |
| QueryStrings.QueryBalanced | codesearch/messages.py:113-129 | every `b` marker is closed by its `e` marker, properly nested |
| QueryStrings.ListQueryBalanced | codesearch/messages.py:122-126 | the same holds for lists |
| QueryStrings.EntriesQueryBalanced | codesearch/messages.py:106-107 | the same holds for the loop over attributes |
| QueryStrings.MessageQueryBalanced | codesearch/messages.py:103-108 | the same holds for the generic query string of an instance |
| QueryStrings.AsQueryBalanced | codesearch/messages.py:103-108 | the same holds for any instance's query string |
| QueryStrings.AnnotationQueryBalanced | codesearch/messages.py:1012-1018 | the `md5` insertion keeps the markers balanced |
| QueryStrings.EntriesQueryAscending | codesearch/messages.py:106-107 | over sorted primitive attributes the pairs come out in ascending key order |
| QueryStrings.MessageQueryAscending | codesearch/messages.py:103-108 | an instance with primitive attributes gives pairs in ascending key order |
| QueryStrings.FooExample | codesearch/test_messages.py:89-92 | `Foo` with `x = 3` gives `[('x', '3')]` |
| JsonEncoder.EncodeAttr | codesearch/messages.py:35-51 | undeclared keys are kept; enum fields become their symbol; other declared fields are dropped exactly when empty (`''` in a `str` field, `[]` in a list field, or None) |
| JsonEncoder.EncodeAttrs | codesearch/messages.py:34-51 | the output is never longer than the attributes |
| JsonEncoder.EncodeAttrsKeeps | codesearch/messages.py:34-51 | output keys come from the attributes; undeclared entries all survive; no kept declared non-enum value is empty |
| JsonEncoder.EncodeAttrsAppend | codesearch/messages.py:34-51 | the encoder handles the attributes one at a time, in order |
| JsonEncoder.EnumFieldRoundTrip | codesearch/messages.py:36-39 | a declared enum value is written as a name that `FromSymbol` maps back to it |
| JsonEncoder.SymbolizedDefault | codesearch/messages.py:28-53 | non-instances pass through; an instance becomes a dict no larger than its `__dict__` |
| JsonEncoder.Default | codesearch/messages.py:28-53 | the loop computes the symbolized encoding |
| Protocol.New | codesearch/messages.py:596-610 | a record constructor assigns exactly its fields, each from the keyword arguments or its default |
| Protocol.DroppedAndKeptFields | codesearch/messages.py:1313-1384 | `XrefSearchRequest` never has `edge_filter`, `XrefSingleMatch` never has `grok_modifiers`, and `Annotation` always has `xref_signature` |
| Protocol.RequestDefaults | codesearch/messages.py:1142-1153 | `CallGraphRequest` and `XrefSearchRequest` default `max_num_results` to 100 |
| Protocol.XrefSearchRequestInit | codesearch/messages.py:1372-1384 | the table's `XrefSearchRequest` assigns no `edge_filter` |
| Protocol.ClassesWellFormed | codesearch/messages.py:1156-1240 | the protocol's class table is well formed: only `Message` is untyped, and no enum class (`EdgeEnumKind` among them) names a constant twice |
| Records.ContainsExamples | codesearch/messages.py:291-294 | the range 1:8–3:1 contains its ends and inner lines, but not positions before or after it |
| Records.ContainsIsBetween | codesearch/messages.py:291-294 | `Contains` holds iff the position lies between the start and the end |
| Records.OverlapsSymmetric | codesearch/messages.py:296-321 | `Overlaps` is symmetric |
| Records.OverlapsNeedsCommonLines | codesearch/messages.py:296-330 | an empty range overlaps nothing, and ranges on disjoint lines do not overlap |
| Records.EqNeverHolds | codesearch/messages.py:333-343 | `__eq__`, as written, is never true |
| Records.Tickets | codesearch/messages.py:373-380 | an empty signature adds no tickets; otherwise its space-split pieces |
| Records.SignatureList | codesearch/messages.py:373-380 | there are no signatures iff both signature strings are empty |
| Records.FirstSignature | codesearch/messages.py:382-387 | the first signature, or `""` when there is none |
| Records.SignatureListMatches | codesearch/messages.py:368-380 | every listed signature matches, and every non-empty matching ticket is listed |
| Records.SignatureListOfPair | codesearch/messages.py:373-387 | `"a b"` lists `a` then `b`; the first is `a` |
| Records.AnnotationSignatureDispatch | codesearch/messages.py:612-638 | an annotation has a signature iff it is a link or a cross-reference; links answer through `internal_link` and cross-references through `xref_signature` |
| Records.AnnotationSignaturesMatch | codesearch/messages.py:612-638 | every listed signature matches, and the signature is the first listed one |
| Records.PreOrder | codesearch/messages.py:866-878 | the traversal starts at the block itself |
| Records.FirstMatch | codesearch/messages.py:866-878 | the first matching block of a list, with none before it |
| Records.FirstMatchAppend | codesearch/messages.py:874-877 | the first match in a concatenation is found in the first part if it has one |
| Records.FindIsFirstInPreOrder | codesearch/messages.py:866-878 | `Find` returns the first matching block in pre-order, or None |
| Records.FindInIsFirst | codesearch/messages.py:874-878 | the same holds for the loop over the children |
| Records.FindSelf | codesearch/messages.py:871-872 | a block with the name (or `*`) and type finds itself |
| Records.Attr | codesearch/client_api.py:560 | attribute access succeeds iff the instance has the attribute, and otherwise raises AttributeError |
| Records.StrAttr | codesearch/client_api.py:612 | succeeds only when the attribute is present and holds a string, giving that string |
| Records.ItemsAttr | codesearch/client_api.py:562 | succeeds only when the attribute is present and holds a list, giving its items |
| Records.AnnotationsOf | codesearch/client_api.py:84-86 | the annotation list is read element by element, keeping its length |
| Records.FileSpecRoundTrip | codesearch/messages.py:641-652 | a `FileSpec` written as a message reads back unchanged |
| Records.XrefSingleMatchOf | codesearch/messages.py:1313-1330 | a match has `grok_modifiers` exactly when the decoded value has that attribute |
| Records.XrefSingleMatchesOf | codesearch/messages.py:1333-1342 | the match list keeps its length, and each match is read from the value at its own position |
| Records.XrefSearchResultsOf | codesearch/messages.py:1345-1368 | the result list keeps its length, and each result is read from the value at its own position |
| Records.ConstructedMatchHasNoModifiers | codesearch/messages.py:1324-1330 | a match built by `XrefSingleMatch(**kwargs)` never has `grok_modifiers` |
| Replies.ProtocolReplyTable | codesearch/messages.py:1313-1345 | the protocol's table builds `XrefSingleMatch` with an `__init__` that never assigns `grok_modifiers`, and declares `match`, `search_result` and `xref_search_response` as lists of the next class down with empty defaults |
| Replies.CoercedMatchClean | codesearch/messages.py:1324-1330 | a match coerced from parsed JSON has no `grok_modifiers` |
| Replies.CoercedCompoundClean | codesearch/messages.py:131-176 | a `CompoundResponse` coerced from parsed JSON holds, at every level of its cross-reference responses, only matches without `grok_modifiers` |
| Replies.CleanResponseResults | codesearch/messages.py:1333-1345 | the search results read from a clean response carry no `grok_modifiers` |
| ClientApi.RequestFor | codesearch/client_api.py:450-457 | URLs up to 1500 characters are a GET of the URL; longer ones are a POST to a `?`-free prefix of it |
| ClientApi.LongUrlIsPosted | codesearch/client_api.py:450-457 | a long request URL is posted to `host/codesearch/json` with the whole query string as the body |
| ClientApi.Instantiate | codesearch/client_api.py:478-484 | constructing a class of the table succeeds iff it is a record class that accepts the arguments |
| ClientApi.IntList | codesearch/client_api.py:560 | a list of ints keeps its length |
| ClientApi.EdgeFilterIgnored | codesearch/client_api.py:553-562 | when `XrefSearchRequest` assigns no `edge_filter`, requests that differ only in the filter are equal |
| ClientApi.EdgeFilterIgnoredByProtocol | codesearch/client_api.py:553-562 | the message table is such a case, so the filter passed to `GetXrefsFor` never reaches the server |
| ClientApi.FirstOf | codesearch/client_api.py:81 | `response.<field>[0]` succeeds only on a non-empty list, giving its first element |
| ClientApi.CodeSearch.constructor | codesearch/client_api.py:377-413 | a new session has empty caches and zero counters, keeps the environment and message table it is given, and is valid as soon as its parser yields plain JSON |
| ClientApi.CodeSearch.EmptyCachesValid | codesearch/client_api.py:389-391 | a session whose two caches are empty is valid when its parser yields only plain JSON |
| ClientApi.CodeSearch.CachedFromServer | codesearch/client_api.py:516-531 | a cached `CsFile` belongs to the session, its info is what a plain request for its name returned, and its annotations, once fetched, are what the server lists for its spec |
| ClientApi.CodeSearch.GetFileSpec | codesearch/client_api.py:421-430 | no path gives `.`; a `FileSpec` is used as it is; a path is resolved under the session's package |
| ClientApi.CodeSearch.Retrieve | codesearch/client_api.py:438-464 | the reply is what the server answers; with caching on, a non-empty cached reply is a hit and leaves the cache as it was; otherwise a miss, and a success is cached when caching is on |
| ClientApi.CodeSearch.SendRequestToServer | codesearch/client_api.py:466-474 | a non-`CompoundRequest` raises ValueError; otherwise the reply decoded into `CompoundResponse`, with exactly one retrieval when a URL was built |
| ClientApi.CodeSearch.GetAnnotationsForFile | codesearch/client_api.py:476-484 | the reply to the annotation request for the file's spec, with at most one retrieval |
| ClientApi.CodeSearch.GetFileInfo | codesearch/client_api.py:501-536 | a plain request for a cached name returns the cached file with no retrieval; otherwise a fresh `CsFile` of the server's file info, cached iff the request is plain |
| ClientApi.CodeSearch.NewFile | codesearch/client_api.py:519-536 | succeeds iff the server's file info can be read, giving a fresh `CsFile` of this session holding exactly that info and no annotations; fails with the reading's error otherwise |
| ClientApi.CodeSearch.GetXrefsFor | codesearch/client_api.py:553-564 | the search results of the cross-reference reply, or none when it has no `search_result` |
| ClientApi.CodeSearch.GetOverridingDefinitions | codesearch/client_api.py:566-579 | computes `OverridingDefinitions` |
| ClientApi.CodeSearch.XrefsHaveNoModifiers | codesearch/client_api.py:553-564 | no match of any cross-reference search result carries `grok_modifiers`, because a reply parsed from JSON builds its matches with `XrefSingleMatch.__init__` |
| ClientApi.CodeSearch.OverridingDefinitionsEmpty | codesearch/client_api.py:566-579 | `GetOverridingDefinitions` either fails or returns no results: no match is ever flagged as a definition |
| ClientApi.CleanReplyResults | codesearch/client_api.py:562-564 | the search results read from a reply whose matches are all clean carry no `grok_modifiers` |
| ClientApi.OverridingCandidatesIn | codesearch/client_api.py:569-578 | the outer loop computes the results that keep definition matches |
| ClientApi.DefinitionMatchesIn | codesearch/client_api.py:571-575 | the inner loop keeps the definition matches, in order |
| ClientApi.DefinitionMatches | codesearch/client_api.py:571-575 | never more matches than given |
| ClientApi.DefinitionMatchesFilter | codesearch/client_api.py:571-575 | the kept matches are exactly those flagged `definition` |
| ClientApi.OverridingCandidates | codesearch/client_api.py:569-578 | never more results than given |
| ClientApi.OverridingCandidatesAreDefinitions | codesearch/client_api.py:569-578 | every candidate keeps its result's file and holds that result's definition matches, at least one |
| ClientApi.NoModifiersNoOverrides | codesearch/client_api.py:572-574 | matches without `grok_modifiers` never count, so no result survives |
| ClientApi.NoModifiersNoDefinitions | codesearch/client_api.py:572-574 | matches without `grok_modifiers` are never definitions |
| ClientApi.CodeSearch.Overrides | codesearch/client_api.py:589 | the function value answers every signature as `GetOverridingDefinitions` does |
| ClientApi.CodeSearch.GetCallTargets | codesearch/client_api.py:581-593 | computes `CallTargets` |
| ClientApi.CodeSearch.CallTargetsAreDefinitions | codesearch/client_api.py:581-593 | once the declaration search succeeds, the call targets are exactly the result of the `HAS_DEFINITION` search: no declaration is ever virtual |
| ClientApi.NoModifiersNotVirtual | codesearch/client_api.py:585-590 | results whose matches have no `grok_modifiers` contribute no overrides |
| ClientApi.NoModifiersNotVirtualOf | codesearch/client_api.py:586-590 | matches without `grok_modifiers` contribute no overrides |
| ClientApi.CodeSearch.CallTargetsFor | codesearch/client_api.py:585-593 | the overrides of the virtual declarations, or the definitions of the symbol when there are none |
| ClientApi.CodeSearch.VirtualOverridesIn | codesearch/client_api.py:585-589 | the outer loop collects the overrides of each result, in order, stopping at the first error |
| ClientApi.CodeSearch.OverridesAmong | codesearch/client_api.py:586-589 | the inner loop collects the overrides of each match, in order, stopping at the first error |
| ClientApi.CodeSearch.OverridesOfMatchIn | codesearch/client_api.py:587-589 | a virtual match contributes its overriding definitions; any other contributes nothing |
| ClientApi.VirtualOverridesFails | codesearch/client_api.py:585-589 | once a prefix fails, every longer prefix fails with the same error |
| ClientApi.VirtualOverridesOfFails | codesearch/client_api.py:586-589 | the same holds over the matches of one result |
| ClientApi.CodeSearch.IsContentStale | codesearch/client_api.py:595-618 | the staleness of the server's lines against the buffer |
| ClientApi.ContentDiffers | codesearch/client_api.py:607-618 | with `check_prefix`, stale iff the server has fewer lines or differs within the buffer's length; without it, stale iff the two differ at a common position |
| ClientApi.PrefixIsFresh | codesearch/client_api.py:607-618 | a buffer that is a prefix of the server's lines is stale in neither mode |
| ClientApi.LongerBufferStaleOnlyWithPrefix | codesearch/client_api.py:609-611 | a longer buffer is stale with `check_prefix` and not without it |
| ClientApi.CodeSearch.GetSignatureForLocation | codesearch/client_api.py:486-499 | a result is the signature scan over the file's cached annotations, which `Valid` ties to the server's list (`CachedFromServer`) |
| ClientApi.SignatureAt | codesearch/client_api.py:487-499 | succeeds iff some annotation's range contains the position |
| ClientApi.SignatureForLocationIn | codesearch/client_api.py:487-499 | the signature of the first annotation whose range contains the position; an error iff none does |
| ClientApi.CodeSearch.GetSignatureForSymbol | codesearch/client_api.py:538-551 | a result is the symbol scan over the file's cached annotations, which `Valid` ties to the server's list (`CachedFromServer`) |
| ClientApi.SignatureFor | codesearch/client_api.py:539-544 | a result contains `symbol(` |
| ClientApi.SignatureForSymbolIn | codesearch/client_api.py:539-551 | the first cross-reference signature containing `symbol(`; an error iff none does |
| ClientApi.CsFile.constructor | codesearch/client_api.py:34-46 | the file's lines are `splitlines()` of its text, and no annotations are fetched yet |
| ClientApi.CsFile.Text | codesearch/client_api.py:52-73 | IndexError exactly when a line bound lies outside the file or the range runs backwards |
| ClientApi.TextOfWholeLines | codesearch/client_api.py:52-73 | a range over whole lines gives those lines joined by `\n` |
| ClientApi.CsFile.GetAnnotations | codesearch/client_api.py:79-89 | a cached list is returned with no retrieval; otherwise it is fetched and cached; an empty list is kept and raises IndexError |
| ClientApi.CsFile.GetAnchorText | codesearch/client_api.py:91-100 | with cached annotations, their anchor text; on a first call, the fetch error, IndexError for an empty list, or the anchor text of the fetched list |
| ClientApi.CsFile.AnchorText | codesearch/client_api.py:95-100 | a failure is IndexError from the text or the display-name failure naming the signature |
| ClientApi.CsFile.AnchorTextIsFirstMatch | codesearch/client_api.py:95-100 | the text of the first annotation carrying the signature, or the display-name failure when none does |
| ClientApi.XrefNode.GetEdges | codesearch/client_api.py:163-182 | the nodes of the cross-reference results, each with this node as parent |
| ClientApi.Edges | codesearch/client_api.py:163-182 | every node returned has this node as its parent |
| ClientApi.FromSignature | codesearch/client_api.py:319-331 | a parentless node with the signature, with a file spec iff a file is given |
| ClientApi.FromAnnotation | codesearch/client_api.py:333-346 | defined iff the annotation is a link; then the node of the link's signature in the link's file |
| ClientApi.ResultNodes | codesearch/client_api.py:361-364 | one node per match of a result, in order, in that result's file |
| ClientApi.SearchNodesAt | codesearch/client_api.py:348-366 | the `j`-th match of the `i`-th result becomes the node after all earlier results' matches |
| ClientApi.SearchNodesLength | codesearch/client_api.py:348-366 | there are as many nodes as matches |
| ClientApi.SearchNodesParent | codesearch/client_api.py:348-366 | every node carries the given parent |
| ClientApi.FromSearchResults | codesearch/client_api.py:348-366 | the nested loops build those nodes |
| ClientApi.XrefNode.GetRelatedAnnotations | codesearch/client_api.py:228-253 | a result is the related-annotation scan over the node file's cached annotations, which `Valid` ties to the server's list (`CachedFromServer`) |
| ClientApi.TargetRange | codesearch/client_api.py:234-240 | the range of the first annotation with the node's signature; None iff there is none |
| ClientApi.RelatedAreLineNeighbours | codesearch/client_api.py:243-253 | the related annotations are exactly those whose lines meet the target's lines, since the equality test never excludes one |
| ClientApi.RelatedAnnotationsIn | codesearch/client_api.py:234-253 | the two loops compute the related annotations, failing when the signature has no annotation |
| ClientApi.XrefNode.GetRelatedDefinitions | codesearch/client_api.py:255-305 | a result is the related-definitions scan over the node file's cached annotations, which `Valid` ties to the server's list (`CachedFromServer`) |
| ClientApi.DefinitionsOf | codesearch/client_api.py:300 | every definition node has the link's node as parent |
| ClientApi.DefinitionEdges | codesearch/client_api.py:300 | the function value answers every node as its definition-edge query does |
| ClientApi.DefinitionsForFails | codesearch/client_api.py:292-305 | once a prefix fails, every longer prefix fails with the same error |
| ClientApi.DefinitionsPerLink | codesearch/client_api.py:292-305 | one result per nearby link annotation, in order: the link's own node, or a definition reached from it |
| ClientApi.DefinitionForIn | codesearch/client_api.py:293-304 | what one annotation adds: nothing for non-links and for links whose lines do not meet the target's; otherwise the link's first definition, or the link's own node when it has none |
| ClientApi.RelatedDefinitionsIn | codesearch/client_api.py:281-305 | the two loops compute the related definitions, stopping at the first error |
| TestClasses.CoerceKnownEnum | codesearch/test_messages.py:271-274 | `Coerce("FOO", Qux)` is `Qux.FOO` |
| TestClasses.CoerceUnknownEnum | codesearch/test_messages.py:276-279 | `Coerce("incorrect value", Qux)` raises a ValueError mentioning "unrecognized symbolic enum value" |
| TestClasses.UndeclaredKeyDropped | codesearch/test_messages.py:115-118 | `Foo` from `{'y': 3}` is a `Foo` with the default `x` and no `y` |
| TestClasses.InnerEntries | codesearch/test_messages.py:104-109 | the inner dict's `x` is already an int |
| TestClasses.InnerDefaults | codesearch/test_messages.py:36-45 | `Bar(x=4)` gets the default empty `y` |
| TestClasses.ParentElementIsBar | codesearch/test_messages.py:104-109 | the element of `y` becomes a `Bar` through the parent marker |
| TestClasses.ParentListOfBars | codesearch/test_messages.py:104-109 | `y` becomes a list of one `Bar` |
| TestClasses.OuterEntries | codesearch/test_messages.py:104-109 | the outer dict's entries coerce to `x = 3` and that list |
| TestClasses.OuterDefaults | codesearch/test_messages.py:36-45 | `Bar(x=3, y=[...])` keeps both values |
| TestClasses.OuterCoerce | codesearch/test_messages.py:104-109 | coercing the outer dict into `Bar` builds that `Bar` |
| TestClasses.NestedParentRecord | codesearch/test_messages.py:104-109 | `Bar` from `{'x': 3, 'y': [{'x': 4}]}` has `x = 3` and a `y` holding a `Bar` with `x = 4` |

## Left out

- The typed views (`Records`) hold only the fields the client reads. `FileInfo` holds its name, package and text.
- JSON text parsing (`json.loads`) is a parameter. `FromJsonString`'s byte decoding and `AttemptToFixupInvalidUtf8` are not modelled, since they are text encoding.
- The network (`urlopen`, request headers, timeouts) is a parameter. Only the GET/POST choice of `_Retrieve` is modelled.
- `urlencode` is a parameter. The POST split of a long URL covers URLs of the form `scheme://host/path?query#fragment`; `urlparse`'s `;params` are not separated.
- `os.path.relpath`/`abspath` and `GetSourceRoot` are a parameter. `codesearch/paths.py` is not part of this model.
- `codesearch/file_cache.py` is not part of this model: the response cache is a map from URL to reply, with no expiry, disk or locking. `TeardownCache` and the logger are left out.
- The enum classes list only the constants the client uses: `AnnotationTypeValue`, `FileType` and `KytheXrefKind` in full, and for `EdgeEnumKind` the three edge kinds the session passes (`HAS_DECLARATION`, `HAS_DEFINITION`, `OVERRIDDEN_BY`). `NodeEnumKind`, `FormatType` and the others have no constants.
- The directory-listing, free-text search and status classes (`DirInfo*`, `SearchRequest`, `SearchResponse`, `StatusResponse` and their parts) are not in the class table. Coercing into them reports an unmodelled class.
- `Node.node_kind` defaults to the `int` type object, which is modelled as None.
- `FileInfoRequest`'s `file_spec` default is `FileSpec.__class__`, the metaclass. It is modelled as a default `FileSpec`, because the session always passes one.
- `hasattr` on a class sees inherited attributes such as `DESCRIPTOR`. `FromSymbol` and enum coercion look only at declared constants.
- `CsFile.__init__` also clears `file_info.content.text`; that is not modelled. `CsFile.__init__` gives a file info without `content` no lines. The model instead reads `content` when it reads the reply, and reports AttributeError when it is missing, so `GetFileInfo` fails there. For replies coerced with the protocol's table the case does not arise, since `FileInfo.__init__` always assigns `content` (`codesearch/messages.py:926`).
- `Value` has no floats. `json.loads` can produce them, and `Coerce`'s final `target_type(source)` truncates a float into an int field (`int(1.5)` is 1); a reply holding floats is not modelled.
- `CsFile.Path`, `XrefNode.GetXrefKind`, `GetAllEdges`, `GetFile`, `GetDisplayName`, `GetSignature`, `__str__` and `StringifyObject` are not modelled. They are display helpers, or compose modelled operations.
- `CodeSearchProtoJsonEncoder.default` is not modelled: it returns `__dict__` unchanged.
- `GetSignatureForLocation` and `GetSignatureForSymbol` fall back to `internal_link` when an annotation has no `xref_signature`. That branch is dead, because `Annotation.__init__` always assigns `xref_signature`, so it is not modelled.
- ClientApi.CsFile.GetAnnotations: when the annotations cannot be read out of the reply, nothing is cached and the error is returned.
- ClientApi.CodeSearch.GetSignatureForLocation: states its result only on success. A failure may come from the file-info fetch, the annotation fetch or the scan.
- ClientApi.CodeSearch.GetSignatureForSymbol: states its result only on success, for the same reason.
- ClientApi.XrefNode.GetRelatedAnnotations: states its result only on success, for the same reason.
- ClientApi.XrefNode.GetRelatedDefinitions: states its result only on success, for the same reason.
- ClientApi.CodeSearch.VirtualOverridesIn: receives `GetOverridingDefinitions` as a ghost function value, tied to the session by `AnswersOverrides`. The same holds for `OverridesAmong`, `OverridesOfMatchIn` and `CallTargetsFor`.
- ClientApi.RelatedDefinitionsIn: receives the definition-edge query as a ghost function value, tied to the session by `AnswersDefinitions`. The same holds for `DefinitionForIn`.
- Messages.CoerceEnum: the error message names the class by name, not by `str(cls)`, which prints the Python class path.
- Messages.PyStr: `str()` of a list, dict or instance is `repr` output and is reported as unmodelled. The query string of such a value is therefore unmodelled too.
- PyStrings.ParseInt: `int()` of a string accepts an optional sign and ASCII digits. Surrounding whitespace, underscores and non-ASCII digits are not accepted.
- `GetOverridingDefinitions` replaces `result.match` on the objects the server returned. The model builds new results, so that aliasing is not captured.

## Findings

| source | as written | input that shows it | evidently intended | confidence | as-written member | corrected member |
|---|---|---|---|---|---|---|
| codesearch/language_utils.py:97 | `CppIdentifierTokens(s)[0] == s` indexes the token list unconditionally | `IsIdentifier("")` or `IsIdentifier("::")`: no tokens, so IndexError | return False for a string with no identifier token | high, not executed | LanguageUtils.IsIdentifierRaisesOnEmpty | LanguageUtils.IsCppIdentifier |
