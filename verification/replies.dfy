/**
 * What a cross-reference reply can hold once `json.loads` has parsed it and
 * `CompoundResponse.FromShallowDict` has coerced it. A parsed reply has no
 * message instance in it, so every `XrefSingleMatch` inside it is built by
 * `XrefSingleMatch.__init__`, which never assigns `grok_modifiers`. No match
 * of a reply therefore carries modifiers.
 */
module Replies {
  import opened Wrappers
  import opened Messages
  import Protocol
  import opened Records

  /**
   * What coercing a cross-reference reply relies on: `XrefSingleMatch` is
   * built by an `__init__` that does not assign `grok_modifiers`, and each
   * enclosing class declares its list field with the right element class
   * and a default that is plain JSON.
   */
  predicate ReplyTable(sch: Schema)
  {
    "XrefSingleMatch" in sch && sch["XrefSingleMatch"].Record? && sch["XrefSingleMatch"].init.Assigns? &&
    "grok_modifiers" !in Keys(sch["XrefSingleMatch"].init.fields) &&
    ListField(sch, "XrefSearchResult", "match", "XrefSingleMatch") &&
    ListField(sch, "XrefSearchResponse", "search_result", "XrefSearchResult") &&
    ListField(sch, "CompoundResponse", "xref_search_response", "XrefSearchResponse")
  }

  /** Record class `cls` assigns field `k`, declared as a list of `elem`, with a plain default. */
  predicate ListField(sch: Schema, cls: string, k: string, elem: string)
  {
    cls in sch && sch[cls].Record? && sch[cls].init.Assigns? &&
    k in sch[cls].descriptor && sch[cls].descriptor[k] == ListOf(Class(elem)) &&
    Get(sch[cls].init.fields, k).Some? && Plain(Get(sch[cls].init.fields, k).value)
  }

  /** The protocol's own table has those entries. */
  lemma ProtocolReplyTable()
    ensures ReplyTable(Protocol.Classes)
  {
    Protocol.XrefSingleMatchEntry();
    Protocol.GrokModifiersUnassigned();
    ProtocolMatchField();
    ProtocolSearchResultField();
    ProtocolXrefSearchResponseField();
  }

  lemma ProtocolMatchField()
    ensures ListField(Protocol.Classes, "XrefSearchResult", "match", "XrefSingleMatch")
  {
    Protocol.XrefSearchResultEntry();
    Protocol.MatchField();
    RecordListField(Protocol.Classes, "XrefSearchResult", "match", "XrefSingleMatch",
                    Protocol.XrefSearchResultDescriptor, Protocol.XrefSearchResultFields);
  }

  lemma ProtocolSearchResultField()
    ensures ListField(Protocol.Classes, "XrefSearchResponse", "search_result", "XrefSearchResult")
  {
    Protocol.XrefSearchResponseEntry();
    Protocol.SearchResultField();
    RecordListField(Protocol.Classes, "XrefSearchResponse", "search_result", "XrefSearchResult",
                    Protocol.XrefSearchResponseDescriptor, Protocol.XrefSearchResponseFields);
  }

  lemma ProtocolXrefSearchResponseField()
    ensures ListField(Protocol.Classes, "CompoundResponse", "xref_search_response", "XrefSearchResponse")
  {
    Protocol.CompoundResponseEntry();
    Protocol.XrefSearchResponseField();
    RecordListField(Protocol.Classes, "CompoundResponse", "xref_search_response", "XrefSearchResponse",
                    Protocol.CompoundResponseDescriptor, Protocol.CompoundResponseFields);
  }

  /** A record entry whose list field is declared and has a plain default. */
  lemma RecordListField(sch: Schema, cls: string, k: string, elem: string,
                        desc: map<string, FieldType>, fields: seq<Entry>)
    requires cls in sch && sch[cls] == Record(desc, Assigns(fields))
    requires k in desc && desc[k] == ListOf(Class(elem))
    requires Get(fields, k) == Some(List([])) || Get(fields, k) == Some(Nil)
    ensures ListField(sch, cls, k, elem)
  {
  }

  // ---------------------------------------------------------------------------
  // Clean replies

  /** A value that, read as a match, has no `grok_modifiers`. */
  predicate MatchClean(v: Value)
  {
    !(v.Obj? && "grok_modifiers" in Keys(v.attrs))
  }

  /** A result whose `match` list holds only clean matches. */
  predicate ResultClean(v: Value)
  {
    v.Obj? && Get(v.attrs, "match").Some? && Get(v.attrs, "match").value.List? ==>
      forall x | x in Get(v.attrs, "match").value.items :: MatchClean(x)
  }

  /** A response whose `search_result` list holds only clean results. */
  predicate ResponseClean(v: Value)
  {
    v.Obj? && Get(v.attrs, "search_result").Some? && Get(v.attrs, "search_result").value.List? ==>
      forall x | x in Get(v.attrs, "search_result").value.items :: ResultClean(x)
  }

  /** A compound response whose `xref_search_response` list holds only clean responses. */
  predicate CompoundClean(v: Value)
  {
    v.Obj? && Get(v.attrs, "xref_search_response").Some? && Get(v.attrs, "xref_search_response").value.List? ==>
      forall x | x in Get(v.attrs, "xref_search_response").value.items :: ResponseClean(x)
  }

  // ---------------------------------------------------------------------------
  // Coercing a parsed reply

  /** An entry of a parsed dict is itself parsed JSON. */
  /** No item of a plain list is an instance. */
  lemma PlainItems(v: Value)
    requires Plain(v) && v.List?
    ensures forall x | x in v.items :: !x.Obj?
  {
  }

  lemma PlainGet(es: seq<Entry>, k: string)
    requires Plain(Dict(es))
    ensures Get(es, k).Some? ==> Plain(Get(es, k).value)
  {
    var n := FindKey(es, k);
    if n < |es| {
      assert es[n] in es;
    }
  }

  /** A list field coerced from parsed JSON holds, item by item, the coercions of parsed items. */
  lemma CoercedItems(sch: Schema, src: Value, elem: string, parent: Option<string>)
    requires Plain(src)
    requires Coerce(sch, src, ListOf(Class(elem)), parent).Ok?
    ensures var ys := Coerce(sch, src, ListOf(Class(elem)), parent).value;
            src.List? && ys.List? && |ys.items| == |src.items| &&
            forall j :: 0 <= j < |src.items| ==>
              Plain(src.items[j]) && Coerce(sch, src.items[j], Class(elem), parent) == Ok(ys.items[j])
  {
    if !src.List? {
      CoerceListNeedsList(sch, src, Class(elem), parent);
    } else {
      assert src == List(src.items);
      CoerceList(sch, src.items, Class(elem), parent);
      forall j | 0 <= j < |src.items|
        ensures Plain(src.items[j])
      {
        assert src.items[j] in src.items;
      }
    }
  }

  /** A match coerced from parsed JSON is built by `__init__` and has no `grok_modifiers`. */
  lemma CoercedMatchClean(sch: Schema, src: Value, parent: Option<string>)
    requires ReplyTable(sch) && Plain(src)
    requires Coerce(sch, src, Class("XrefSingleMatch"), parent).Ok?
    ensures MatchClean(Coerce(sch, src, Class("XrefSingleMatch"), parent).value)
  {
    CoerceRecordAttr(sch, src.entries, "XrefSingleMatch", parent, "grok_modifiers");
    assert src == Dict(src.entries);
  }

  /** A `match` list coerced from parsed JSON holds only clean matches. */
  lemma CoercedMatchesClean(sch: Schema, src: Value, parent: Option<string>)
    requires ReplyTable(sch) && Plain(src)
    requires Coerce(sch, src, ListOf(Class("XrefSingleMatch")), parent).Ok?
    ensures var ys := Coerce(sch, src, ListOf(Class("XrefSingleMatch")), parent).value;
            ys.List? && forall x | x in ys.items :: MatchClean(x)
  {
    CoercedItems(sch, src, "XrefSingleMatch", parent);
    var ys := Coerce(sch, src, ListOf(Class("XrefSingleMatch")), parent).value.items;
    forall x | x in ys
      ensures MatchClean(x)
    {
      var j :| 0 <= j < |ys| && ys[j] == x;
      CoercedMatchClean(sch, src.items[j], parent);
    }
  }

  /** A result coerced from parsed JSON holds only clean matches. */
  lemma CoercedResultClean(sch: Schema, src: Value, parent: Option<string>)
    requires ReplyTable(sch) && Plain(src)
    requires Coerce(sch, src, Class("XrefSearchResult"), parent).Ok?
    ensures ResultClean(Coerce(sch, src, Class("XrefSearchResult"), parent).value)
  {
    var es := src.entries;
    assert src == Dict(es);
    CoerceRecordAttr(sch, es, "XrefSearchResult", parent, "match");
    if "match" !in Keys(es) {
      var d := Get(sch["XrefSearchResult"].init.fields, "match").value;
      if d.List? {
        PlainItems(d);
      }
    } else {
      PlainGet(es, "match");
      CoercedMatchesClean(sch, Get(es, "match").value, Some("XrefSearchResult"));
    }
  }

  /** A `search_result` list coerced from parsed JSON holds only clean results. */
  lemma CoercedResultsClean(sch: Schema, src: Value, parent: Option<string>)
    requires ReplyTable(sch) && Plain(src)
    requires Coerce(sch, src, ListOf(Class("XrefSearchResult")), parent).Ok?
    ensures var ys := Coerce(sch, src, ListOf(Class("XrefSearchResult")), parent).value;
            ys.List? && forall x | x in ys.items :: ResultClean(x)
  {
    CoercedItems(sch, src, "XrefSearchResult", parent);
    var ys := Coerce(sch, src, ListOf(Class("XrefSearchResult")), parent).value.items;
    forall x | x in ys
      ensures ResultClean(x)
    {
      var j :| 0 <= j < |ys| && ys[j] == x;
      CoercedResultClean(sch, src.items[j], parent);
    }
  }

  /** A response coerced from parsed JSON holds only clean results. */
  lemma CoercedResponseClean(sch: Schema, src: Value, parent: Option<string>)
    requires ReplyTable(sch) && Plain(src)
    requires Coerce(sch, src, Class("XrefSearchResponse"), parent).Ok?
    ensures ResponseClean(Coerce(sch, src, Class("XrefSearchResponse"), parent).value)
  {
    var es := src.entries;
    assert src == Dict(es);
    CoerceRecordAttr(sch, es, "XrefSearchResponse", parent, "search_result");
    if "search_result" !in Keys(es) {
      var d := Get(sch["XrefSearchResponse"].init.fields, "search_result").value;
      if d.List? {
        PlainItems(d);
      }
    } else {
      PlainGet(es, "search_result");
      CoercedResultsClean(sch, Get(es, "search_result").value, Some("XrefSearchResponse"));
    }
  }

  /** An `xref_search_response` list coerced from parsed JSON holds only clean responses. */
  lemma CoercedResponsesClean(sch: Schema, src: Value, parent: Option<string>)
    requires ReplyTable(sch) && Plain(src)
    requires Coerce(sch, src, ListOf(Class("XrefSearchResponse")), parent).Ok?
    ensures var ys := Coerce(sch, src, ListOf(Class("XrefSearchResponse")), parent).value;
            ys.List? && forall x | x in ys.items :: ResponseClean(x)
  {
    CoercedItems(sch, src, "XrefSearchResponse", parent);
    var ys := Coerce(sch, src, ListOf(Class("XrefSearchResponse")), parent).value.items;
    forall x | x in ys
      ensures ResponseClean(x)
    {
      var j :| 0 <= j < |ys| && ys[j] == x;
      CoercedResponseClean(sch, src.items[j], parent);
    }
  }

  /** A compound response coerced from parsed JSON holds only clean cross-reference responses. */
  lemma CoercedCompoundClean(sch: Schema, src: Value)
    requires ReplyTable(sch) && Plain(src)
    requires FromShallowDict(sch, src, "CompoundResponse").Ok?
    ensures CompoundClean(FromShallowDict(sch, src, "CompoundResponse").value)
  {
    var es := src.entries;
    assert src == Dict(es);
    CoerceRecordAttr(sch, es, "CompoundResponse", None, "xref_search_response");
    if "xref_search_response" !in Keys(es) {
      var d := Get(sch["CompoundResponse"].init.fields, "xref_search_response").value;
      if d.List? {
        PlainItems(d);
      }
    } else {
      PlainGet(es, "xref_search_response");
      CoercedResponsesClean(sch, Get(es, "xref_search_response").value, Some("CompoundResponse"));
    }
  }

  // ---------------------------------------------------------------------------
  // Reading a clean reply

  /** The matches read out of a clean result carry no modifiers. */
  lemma CleanResultMatches(v: Value)
    requires ResultClean(v)
    ensures XrefSearchResultOf(v).Ok? ==> forall m | m in XrefSearchResultOf(v).value.matches :: m.grokModifiers.None?
  {
    if XrefSearchResultOf(v).Ok? {
      var ms := ItemsAttr(v, "match").value;
      var matches := XrefSearchResultOf(v).value.matches;
      assert XrefSingleMatchesOf(ms) == Ok(matches);
      forall m | m in matches
        ensures m.grokModifiers.None?
      {
        var j :| 0 <= j < |matches| && matches[j] == m;
        assert ms[j] in ms;
      }
    }
  }

  /** The results read out of a clean response's `search_result` carry no modifiers. */
  lemma CleanResponseResults(r0: Value)
    requires ResponseClean(r0)
    ensures var rs := ItemsAttr(r0, "search_result");
            rs.Ok? && XrefSearchResultsOf(rs.value).Ok? ==>
              forall x, m | x in XrefSearchResultsOf(rs.value).value && m in x.matches :: m.grokModifiers.None?
  {
    var rs := ItemsAttr(r0, "search_result");
    if rs.Ok? && XrefSearchResultsOf(rs.value).Ok? {
      var xs := XrefSearchResultsOf(rs.value).value;
      forall x, m | x in xs && m in x.matches
        ensures m.grokModifiers.None?
      {
        var j :| 0 <= j < |xs| && xs[j] == x;
        assert rs.value[j] in rs.value;
        CleanResultMatches(rs.value[j]);
      }
    }
  }
}
