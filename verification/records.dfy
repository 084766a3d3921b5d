/**
 * The records the client reads, as typed values: `TextRange` with its
 * position predicates, the ticket lists of `XrefSignature` and
 * `InternalLink`, the signature dispatch of `Annotation`, the outline tree of
 * `CodeBlock`, and the file and cross-reference records. Each has a view
 * that reads it out of a message instance, failing as attribute access
 * would when a field is missing or of the wrong kind.
 */
module Records {
  import opened Wrappers
  import opened PyStrings
  import opened Messages
  import Protocol

  // ---------------------------------------------------------------------------
  // TextRange

  /** A range inside a source file; lines and columns are 1-based and inclusive. */
  datatype TextRange = TextRange(startLine: int, startColumn: int, endLine: int, endColumn: int)
  {
    /** Whether position (`line`, `column`) lies inside the range. */
    predicate Contains(line: int, column: int)
    {
      !(line < startLine || line > endLine ||
        (line == startLine && column < startColumn) ||
        (line == endLine && column > endColumn))
    }

    /** A range with any non-zero bound; the all-zero range is the empty default. */
    predicate IsValid()
    {
      startLine != 0 || startColumn != 0 || endLine != 0 || endColumn != 0
    }

    predicate Empty()
    {
      !IsValid()
    }

    /** Whether the two ranges share a position. */
    predicate Overlaps(other: TextRange)
    {
      if !IsValid() || !other.IsValid() then false
      else if !RangeOverlap(startLine, endLine, other.startLine, other.endLine) then false
      else if RangeOverlap(startLine + 1, endLine - 1, other.startLine + 1, other.endLine - 1) then true
      else if endLine == other.startLine && endColumn < other.startColumn then false
      else if other.endLine == startLine && other.endColumn < startColumn then false
      else true
    }

    /** `__eq__` as written: its validity test is inverted, so it never holds. */
    predicate Eq(other: TextRange)
    {
      if !IsValid() || other.IsValid() then false
      else startLine == other.startLine && startColumn == other.startColumn &&
           endLine == other.endLine && endColumn == other.endColumn
    }
  }

  /** Whether the inclusive ranges [s1, e1] and [s2, e2] are both non-empty and intersect. */
  predicate RangeOverlap(s1: int, e1: int, s2: int, e2: int)
  {
    (s1 <= e1 && s2 <= e2) && !(e1 < s2 || e2 < s1)
  }

  /** The range of the `Contains` examples: line 1 column 8 to line 3 column 1. */
  lemma ContainsExamples()
    ensures TextRange(1, 8, 3, 1).Contains(1, 8)
    ensures TextRange(1, 8, 3, 1).Contains(3, 1)
    ensures TextRange(1, 8, 3, 1).Contains(2, 100)
    ensures !TextRange(1, 8, 3, 1).Contains(1, 7)
    ensures !TextRange(1, 8, 3, 1).Contains(3, 2)
  {
  }

  /** `Contains` holds exactly inside the span from the start position to the end position. */
  lemma ContainsIsBetween(r: TextRange, line: int, column: int)
    ensures r.Contains(line, column) <==>
      (r.startLine < line || (r.startLine == line && r.startColumn <= column)) &&
      (line < r.endLine || (line == r.endLine && column <= r.endColumn))
  {
  }

  /** Overlap does not depend on the order of the ranges. */
  lemma OverlapsSymmetric(a: TextRange, b: TextRange)
    ensures a.Overlaps(b) <==> b.Overlaps(a)
  {
  }

  /** An all-zero range overlaps nothing, and neither do ranges whose line spans are disjoint. */
  lemma OverlapsNeedsCommonLines(a: TextRange, b: TextRange)
    ensures a.Empty() || b.Empty() ==> !a.Overlaps(b)
    ensures a.endLine < b.startLine || b.endLine < a.startLine ==> !a.Overlaps(b)
  {
  }

  /** Equality as written holds for no pair of ranges, not even a range and itself. */
  lemma EqNeverHolds(a: TextRange, b: TextRange)
    ensures !a.Eq(b)
  {
  }

  // ---------------------------------------------------------------------------
  // Ticket lists

  /** `s.split(' ')` when `s` is non-empty, and nothing for the empty string. */
  function Tickets(s: string): (r: seq<string>)
    ensures s == [] <==> r == []
    ensures s != [] ==> r == Split(s, ' ')
  {
    if s != [] then Split(s, ' ') else []
  }

  /** `GetSignatures`: the `signature` tickets, then the `highlight_signature` tickets. */
  function SignatureList(signature: string, highlight: string): (r: seq<string>)
    ensures r == [] <==> signature == [] && highlight == []
  {
    Tickets(signature) + Tickets(highlight)
  }

  /** `MatchesSignature`: the ticket is one of the space-separated pieces of either field. */
  predicate TicketMatches(signature: string, highlight: string, ticket: string)
  {
    ticket in Split(highlight, ' ') || ticket in Split(signature, ' ')
  }

  /** `GetSignature`: the first ticket, or the empty string when there is none. */
  function FirstSignature(signature: string, highlight: string): (r: string)
    ensures SignatureList(signature, highlight) != [] ==> r == SignatureList(signature, highlight)[0]
    ensures SignatureList(signature, highlight) == [] ==> r == []
  {
    var sigs := SignatureList(signature, highlight);
    if |sigs| == 0 then [] else sigs[0]
  }

  /**
   * Every ticket `GetSignatures` lists satisfies `MatchesSignature`, and a
   * non-empty ticket that matches is listed. (The empty ticket matches an
   * empty field without being listed.)
   */
  lemma SignatureListMatches(signature: string, highlight: string, ticket: string)
    ensures ticket in SignatureList(signature, highlight) ==> TicketMatches(signature, highlight, ticket)
    ensures ticket != [] && TicketMatches(signature, highlight, ticket) ==> ticket in SignatureList(signature, highlight)
  {
    if ticket != [] && ticket in Split(signature, ' ') && signature == [] {
      assert Split(signature, ' ') == [[]];
    }
    if ticket != [] && ticket in Split(highlight, ' ') && highlight == [] {
      assert Split(highlight, ' ') == [[]];
    }
  }

  /** A list of two signatures joined by a space comes back as the two signatures. */
  lemma SignatureListOfPair(a: string, b: string)
    requires a != [] && b != [] && NoneIn(a, {' '}) && NoneIn(b, {' '})
    ensures SignatureList(a + " " + b, "") == [a, b]
    ensures FirstSignature(a + " " + b, "") == a
  {
    SplitJoin([a, b], ' ', {' '});
    assert Join(" ", [a, b]) == a + " " + Join(" ", [b]);
  }

  /** The cross-reference signature of an annotation. */
  datatype XrefSignature = XrefSignature(highlightSignature: string, signature: string, signatureHash: string)
  {
    predicate MatchesSignature(ticket: string)
    {
      TicketMatches(signature, highlightSignature, ticket)
    }

    function GetSignatures(): seq<string>
    {
      SignatureList(signature, highlightSignature)
    }

    function GetSignature(): string
    {
      FirstSignature(signature, highlightSignature)
    }
  }

  /** The link target of a LINK_TO_DEFINITION annotation. */
  datatype InternalLink = InternalLink(packageName: string, highlightSignature: string, signature: string,
                                       signatureHash: string, path: string, range: TextRange)
  {
    predicate MatchesSignature(ticket: string)
    {
      TicketMatches(signature, highlightSignature, ticket)
    }

    function GetSignatures(): seq<string>
    {
      SignatureList(signature, highlightSignature)
    }

    function GetSignature(): string
    {
      FirstSignature(signature, highlightSignature)
    }
  }

  // ---------------------------------------------------------------------------
  // Annotation

  /** The fields of an annotation the client reads; `typeId` is `type.id`. */
  datatype Annotation = Annotation(typeId: int, range: TextRange, internalLink: InternalLink,
                                   xrefSignature: XrefSignature)
  {
    predicate MatchesSignature(ticket: string)
    {
      if typeId == Protocol.LINK_TO_DEFINITION then internalLink.MatchesSignature(ticket)
      else if typeId == Protocol.XREF_SIGNATURE then xrefSignature.MatchesSignature(ticket)
      else false
    }

    predicate HasSignature()
    {
      typeId == Protocol.LINK_TO_DEFINITION || typeId == Protocol.XREF_SIGNATURE
    }

    function GetSignature(): Option<string>
    {
      if typeId == Protocol.LINK_TO_DEFINITION then Some(internalLink.GetSignature())
      else if typeId == Protocol.XREF_SIGNATURE then Some(xrefSignature.GetSignature())
      else None
    }

    function GetSignatures(): seq<string>
    {
      if typeId == Protocol.LINK_TO_DEFINITION then internalLink.GetSignatures()
      else if typeId == Protocol.XREF_SIGNATURE then xrefSignature.GetSignatures()
      else []
    }
  }

  /**
   * The four signature methods agree on the annotation type: a link reads
   * its internal link, a cross-reference signature reads its signature
   * record, and any other type has no signature at all.
   */
  lemma AnnotationSignatureDispatch(a: Annotation, ticket: string)
    ensures a.HasSignature() <==> a.GetSignature().Some?
    ensures !a.HasSignature() ==> !a.MatchesSignature(ticket) && a.GetSignatures() == []
    ensures a.typeId == Protocol.LINK_TO_DEFINITION ==>
              a.GetSignatures() == a.internalLink.GetSignatures() &&
              a.GetSignature() == Some(a.internalLink.GetSignature()) &&
              (a.MatchesSignature(ticket) <==> a.internalLink.MatchesSignature(ticket))
    ensures a.typeId == Protocol.XREF_SIGNATURE ==>
              a.GetSignatures() == a.xrefSignature.GetSignatures() &&
              a.GetSignature() == Some(a.xrefSignature.GetSignature()) &&
              (a.MatchesSignature(ticket) <==> a.xrefSignature.MatchesSignature(ticket))
  {
  }

  /** For an annotation with a signature, every listed ticket matches and `GetSignature` is the first one. */
  lemma AnnotationSignaturesMatch(a: Annotation, ticket: string)
    ensures ticket in a.GetSignatures() ==> a.MatchesSignature(ticket)
    ensures a.GetSignatures() != [] ==> a.GetSignature() == Some(a.GetSignatures()[0])
  {
    SignatureListMatches(a.internalLink.signature, a.internalLink.highlightSignature, ticket);
    SignatureListMatches(a.xrefSignature.signature, a.xrefSignature.highlightSignature, ticket);
  }

  // ---------------------------------------------------------------------------
  // CodeBlock

  /** A node of a file's outline; `blockType` is a `CodeBlockType` constant. */
  datatype CodeBlock = CodeBlock(child: seq<CodeBlock>, name: string, namePrefix: string, signature: string,
                                 textRange: TextRange, blockType: int)

  /** The test `Find` applies to each node: the type is equal and the name is equal or `"*"`. */
  predicate BlockMatches(b: CodeBlock, name: string, blockType: int)
  {
    (b.name == name || name == "*") && b.blockType == blockType
  }

  /** All nodes of the tree, each before its children, children in order. */
  function PreOrder(b: CodeBlock): (r: seq<CodeBlock>)
    ensures |r| >= 1 && r[0] == b
    decreases b, 1
  {
    [b] + PreOrderAll(b, 0)
  }

  /** The pre-order of the children of `b` from the `i`-th on. */
  function PreOrderAll(b: CodeBlock, i: nat): seq<CodeBlock>
    requires i <= |b.child|
    decreases b, 0, |b.child| - i
  {
    if i == |b.child| then []
    else
      assert b.child[i] in b.child;
      PreOrder(b.child[i]) + PreOrderAll(b, i + 1)
  }

  /** The index of the first node of `nodes` that matches, or `|nodes|`. */
  function FirstMatch(nodes: seq<CodeBlock>, name: string, blockType: int): (n: nat)
    ensures n <= |nodes|
    ensures n < |nodes| ==> BlockMatches(nodes[n], name, blockType)
    ensures forall j :: 0 <= j < n ==> !BlockMatches(nodes[j], name, blockType)
  {
    if nodes == [] then 0
    else if BlockMatches(nodes[0], name, blockType) then 0
    else 1 + FirstMatch(nodes[1..], name, blockType)
  }

  /**
   * `CodeBlock.Find`: the node itself when it matches, otherwise the first
   * child subtree that yields a result.
   */
  function Find(b: CodeBlock, name: string, blockType: int): (r: Option<CodeBlock>)
    decreases b, 1
  {
    if BlockMatches(b, name, blockType) then Some(b)
    else FindIn(b, 0, name, blockType)
  }

  function FindIn(b: CodeBlock, i: nat, name: string, blockType: int): (r: Option<CodeBlock>)
    requires i <= |b.child|
    decreases b, 0, |b.child| - i
  {
    if i == |b.child| then None
    else
      assert b.child[i] in b.child;
      match Find(b.child[i], name, blockType)
      case Some(n) => Some(n)
      case None => FindIn(b, i + 1, name, blockType)
  }

  /** The default arguments of `Find`: the empty name and the `ROOT` type. */
  function FindDefault(b: CodeBlock): Option<CodeBlock>
  {
    Find(b, "", Protocol.ROOT)
  }

  /** The lemma about the index of the first match in a concatenation. */
  lemma FirstMatchAppend(a: seq<CodeBlock>, c: seq<CodeBlock>, name: string, blockType: int)
    ensures FirstMatch(a + c, name, blockType) ==
      if FirstMatch(a, name, blockType) < |a| then FirstMatch(a, name, blockType)
      else |a| + FirstMatch(c, name, blockType)
  {
    if a != [] {
      FirstMatchAppend(a[1..], c, name, blockType);
      assert (a + c)[1..] == a[1..] + c;
    } else {
      assert a + c == c;
    }
  }

  /**
   * `Find` returns the first node in pre-order that matches, and None
   * exactly when no node of the tree matches.
   */
  lemma {:induction false} FindIsFirstInPreOrder(b: CodeBlock, name: string, blockType: int)
    ensures var nodes := PreOrder(b);
            var n := FirstMatch(nodes, name, blockType);
            Find(b, name, blockType) == if n < |nodes| then Some(nodes[n]) else None
    decreases b, 1
  {
    FindInIsFirst(b, 0, name, blockType);
    FirstMatchAppend([b], PreOrderAll(b, 0), name, blockType);
  }

  lemma {:induction false} FindInIsFirst(b: CodeBlock, i: nat, name: string, blockType: int)
    requires i <= |b.child|
    ensures var nodes := PreOrderAll(b, i);
            var n := FirstMatch(nodes, name, blockType);
            FindIn(b, i, name, blockType) == if n < |nodes| then Some(nodes[n]) else None
    decreases b, 0, |b.child| - i
  {
    if i < |b.child| {
      assert b.child[i] in b.child;
      FindIsFirstInPreOrder(b.child[i], name, blockType);
      FindInIsFirst(b, i + 1, name, blockType);
      FirstMatchAppend(PreOrder(b.child[i]), PreOrderAll(b, i + 1), name, blockType);
    }
  }

  /** A node that matches is its own result, and `"*"` matches every name. */
  lemma FindSelf(b: CodeBlock, name: string)
    ensures Find(b, name, b.blockType) == Some(b) <== b.name == name || name == "*"
  {
  }

  // ---------------------------------------------------------------------------
  // Files and cross-references

  datatype FileSpec = FileSpec(name: string, packageName: string, changelist: string)

  /** The fields of `FileInfo` the client reads; `text` is `content.text`. */
  datatype FileInfo = FileInfo(name: string, packageName: string, text: string)

  /**
   * One cross-reference hit. `grokModifiers` is the `grok_modifiers`
   * attribute when the instance has one; a constructed instance never does.
   */
  datatype XrefSingleMatch = XrefSingleMatch(lineNumber: int, lineText: string, kind: string, signature: string,
                                             grokModifiers: Option<Value>)

  datatype XrefSearchResult = XrefSearchResult(file: FileSpec, matches: seq<XrefSingleMatch>)

  /** `XrefSingleMatch(signature=s)`. */
  function MatchFor(signature: string): XrefSingleMatch
  {
    XrefSingleMatch(0, "", "", signature, None)
  }

  // ---------------------------------------------------------------------------
  // Views: reading the records out of message instances

  /** `getattr(o, k)`. */
  function Attr(o: Value, k: string): (r: Result<Value>)
    ensures r.Ok? <==> o.Obj? && k in Keys(o.attrs)
    ensures r.Ok? ==> Get(o.attrs, k) == Some(r.value)
    ensures r.Err? ==> r.error == AttributeError
  {
    if o.Obj? then
      (match Get(o.attrs, k)
       case Some(v) => Ok(v)
       case None => Err(AttributeError))
    else Err(AttributeError)
  }

  /** An integer attribute; a bool counts as 0 or 1. */
  function IntAttr(o: Value, k: string): (r: Result<int>)
  {
    var v :- Attr(o, k);
    match v
    case Int(i) => Ok(i)
    case Bool(b) => Ok(if b then 1 else 0)
    case _ => Err(TypeError)
  }

  function StrAttr(o: Value, k: string): (r: Result<string>)
    ensures r.Ok? ==> Attr(o, k) == Ok(Str(r.value))
  {
    var v :- Attr(o, k);
    if v.Str? then Ok(v.s) else Err(TypeError)
  }

  /** Iterating a list attribute; iterating None or any other value fails. */
  function ItemsAttr(o: Value, k: string): (r: Result<seq<Value>>)
    ensures r.Ok? ==> Attr(o, k) == Ok(List(r.value))
  {
    var v :- Attr(o, k);
    if v.List? then Ok(v.items) else Err(TypeError)
  }

  function TextRangeOf(v: Value): Result<TextRange>
  {
    var sl :- IntAttr(v, "start_line");
    var sc :- IntAttr(v, "start_column");
    var el :- IntAttr(v, "end_line");
    var ec :- IntAttr(v, "end_column");
    Ok(TextRange(sl, sc, el, ec))
  }

  function XrefSignatureOf(v: Value): Result<XrefSignature>
  {
    var h :- StrAttr(v, "highlight_signature");
    var s :- StrAttr(v, "signature");
    var sh :- StrAttr(v, "signature_hash");
    Ok(XrefSignature(h, s, sh))
  }

  function InternalLinkOf(v: Value): Result<InternalLink>
  {
    var pn :- StrAttr(v, "package_name");
    var h :- StrAttr(v, "highlight_signature");
    var s :- StrAttr(v, "signature");
    var sh :- StrAttr(v, "signature_hash");
    var p :- StrAttr(v, "path");
    var rv :- Attr(v, "range");
    var r :- TextRangeOf(rv);
    Ok(InternalLink(pn, h, s, sh, p, r))
  }

  function AnnotationOf(v: Value): Result<Annotation>
  {
    var t :- Attr(v, "type");
    var id :- IntAttr(t, "id");
    var rv :- Attr(v, "range");
    var r :- TextRangeOf(rv);
    var lv :- Attr(v, "internal_link");
    var l :- InternalLinkOf(lv);
    var xv :- Attr(v, "xref_signature");
    var x :- XrefSignatureOf(xv);
    Ok(Annotation(id, r, l, x))
  }

  function AnnotationsOf(vs: seq<Value>): (r: Result<seq<Annotation>>)
    ensures r.Ok? ==> |r.value| == |vs| && forall j :: 0 <= j < |vs| ==> AnnotationOf(vs[j]) == Ok(r.value[j])
  {
    if vs == [] then Ok([])
    else
      var a :- AnnotationOf(vs[0]);
      var rest :- AnnotationsOf(vs[1..]);
      Ok([a] + rest)
  }

  function FileSpecOf(v: Value): Result<FileSpec>
  {
    var n :- StrAttr(v, "name");
    var p :- StrAttr(v, "package_name");
    var c :- StrAttr(v, "changelist");
    Ok(FileSpec(n, p, c))
  }

  /** `FileSpec(name=..., package_name=..., changelist=...)` as a message instance. */
  function FileSpecValue(f: FileSpec): Value
  {
    Obj("FileSpec", [Entry("name", Str(f.name)), Entry("package_name", Str(f.packageName)),
                     Entry("changelist", Str(f.changelist))])
  }

  /** Reading back a `FileSpec` instance gives the spec it was built from. */
  lemma FileSpecRoundTrip(f: FileSpec)
    ensures FileSpecOf(FileSpecValue(f)) == Ok(f)
  {
    assert Keys(FileSpecValue(f).attrs) == ["name", "package_name", "changelist"];
  }

  function FileInfoOf(v: Value): Result<FileInfo>
  {
    var n :- StrAttr(v, "name");
    var p :- StrAttr(v, "package_name");
    var c :- Attr(v, "content");
    var t :- StrAttr(c, "text");
    Ok(FileInfo(n, p, t))
  }

  function XrefSingleMatchOf(v: Value): (r: Result<XrefSingleMatch>)
    ensures r.Ok? ==> (r.value.grokModifiers.Some? <==> v.Obj? && "grok_modifiers" in Keys(v.attrs))
  {
    var ln :- IntAttr(v, "line_number");
    var lt :- StrAttr(v, "line_text");
    var k :- StrAttr(v, "type");
    var s :- StrAttr(v, "signature");
    var g := Attr(v, "grok_modifiers");
    Ok(XrefSingleMatch(ln, lt, k, s, if g.Ok? then Some(g.value) else None))
  }

  function XrefSingleMatchesOf(vs: seq<Value>): (r: Result<seq<XrefSingleMatch>>)
    ensures r.Ok? ==> |r.value| == |vs| && forall j :: 0 <= j < |vs| ==> XrefSingleMatchOf(vs[j]) == Ok(r.value[j])
  {
    if vs == [] then Ok([])
    else
      var m :- XrefSingleMatchOf(vs[0]);
      var rest :- XrefSingleMatchesOf(vs[1..]);
      Ok([m] + rest)
  }

  function XrefSearchResultOf(v: Value): Result<XrefSearchResult>
  {
    var fv :- Attr(v, "file");
    var f :- FileSpecOf(fv);
    var ms :- ItemsAttr(v, "match");
    var m :- XrefSingleMatchesOf(ms);
    Ok(XrefSearchResult(f, m))
  }

  function XrefSearchResultsOf(vs: seq<Value>): (r: Result<seq<XrefSearchResult>>)
    ensures r.Ok? ==> |r.value| == |vs| && forall j :: 0 <= j < |vs| ==> XrefSearchResultOf(vs[j]) == Ok(r.value[j])
  {
    if vs == [] then Ok([])
    else
      var x :- XrefSearchResultOf(vs[0]);
      var rest :- XrefSearchResultsOf(vs[1..]);
      Ok([x] + rest)
  }

  /** A constructed `XrefSingleMatch` has no `grok_modifiers`, so its view carries none. */
  lemma ConstructedMatchHasNoModifiers(kwargs: seq<Entry>)
    ensures var v := Protocol.New("XrefSingleMatch", Protocol.XrefSingleMatchFields, kwargs);
            XrefSingleMatchOf(v).Ok? ==> XrefSingleMatchOf(v).value.grokModifiers.None?
  {
    Protocol.DroppedAndKeptFields(kwargs);
    var v := Protocol.New("XrefSingleMatch", Protocol.XrefSingleMatchFields, kwargs);
    assert "grok_modifiers" !in Keys(v.attrs);
  }
}
