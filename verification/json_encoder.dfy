/**
 * `CodeSearchProtoJsonSymbolizedEncoder.default`: the dict that stands for a
 * message when it is written out as JSON, with enum fields spelled as their
 * symbolic names and empty declared fields left out.
 */
module JsonEncoder {
  import opened Wrappers
  import opened Messages

  /** Whether a declared field holds an enum class. */
  predicate IsEnumField(sch: Schema, t: FieldType)
  {
    t.Class? && t.name in sch && IsEnum(sch[t.name])
  }

  /** A declared non-enum field whose value is None, `''` or `[]`: the encoder omits it. */
  predicate Omitted(t: FieldType, v: Value)
  {
    (t == StrT && v == Str([])) || (t.ListOf? && v == List([])) || v.Nil?
  }

  /** What the encoder writes for one attribute: None when it skips it. */
  function EncodeAttr(sch: Schema, desc: map<string, FieldType>, e: Entry): (r: Option<Entry>)
    ensures r.Some? ==> r.value.key == e.key
    ensures e.key !in desc ==> r == Some(e)
    ensures e.key in desc && !IsEnumField(sch, desc[e.key]) ==>
              (r.None? <==> Omitted(desc[e.key], e.val)) && (r.Some? ==> r.value == e)
    ensures e.key in desc && IsEnumField(sch, desc[e.key]) ==>
              r == Some(Entry(e.key, ToSymbol(sch[desc[e.key].name], e.val).value))
  {
    if e.key !in desc then Some(e)
    else
      var t := desc[e.key];
      if IsEnumField(sch, t) then Some(Entry(e.key, ToSymbol(sch[t.name], e.val).value))
      else if Omitted(t, e.val) then None
      else Some(e)
  }

  /** The attributes the encoder keeps, in `__dict__` order. */
  function EncodeAttrs(sch: Schema, desc: map<string, FieldType>, attrs: seq<Entry>): (r: seq<Entry>)
    ensures |r| <= |attrs|
  {
    if attrs == [] then []
    else
      var rest := EncodeAttrs(sch, desc, attrs[1..]);
      match EncodeAttr(sch, desc, attrs[0])
      case Some(e) => [e] + rest
      case None => rest
  }

  /**
   * Every kept attribute came from the message, every undeclared attribute is
   * kept as it is, and no kept non-enum declared attribute is empty.
   */
  lemma {:induction false} EncodeAttrsKeeps(sch: Schema, desc: map<string, FieldType>, attrs: seq<Entry>)
    ensures forall e | e in EncodeAttrs(sch, desc, attrs) :: e.key in Keys(attrs)
    ensures forall e | e in attrs && e.key !in desc :: e in EncodeAttrs(sch, desc, attrs)
    ensures forall e | e in EncodeAttrs(sch, desc, attrs) && e.key in desc && !IsEnumField(sch, desc[e.key]) ::
              !Omitted(desc[e.key], e.val)
  {
    if attrs != [] {
      EncodeAttrsKeeps(sch, desc, attrs[1..]);
      assert Keys(attrs) == [attrs[0].key] + Keys(attrs[1..]);
      assert forall e | e in attrs :: e == attrs[0] || e in attrs[1..];
    }
  }

  /**
   * `default(o)`: a message becomes the dict of its kept attributes; any other
   * value is returned as it is. A class whose `DESCRIPTOR` is not a dict
   * raises TypeError on its first attribute (`k in int`).
   */
  function SymbolizedDefault(sch: Schema, o: Value): (r: Result<Value>)
    ensures !o.Obj? ==> r == Ok(o)
    ensures r.Ok? && o.Obj? ==> r.value.Dict? && |r.value.entries| <= |o.attrs|
  {
    if !o.Obj? then Ok(o)
    else if o.cls !in sch then Err(Unmodelled("class " + o.cls + " is not in the schema"))
    else
      match sch[o.cls]
      case Record(desc, _) => Ok(Dict(EncodeAttrs(sch, desc, o.attrs)))
      case _ => if o.attrs == [] then Ok(Dict([])) else Err(TypeError)
  }

  /** The loop of `default` as written: fill `rv` one attribute at a time. */
  method Default(sch: Schema, o: Value) returns (r: Result<Value>)
    ensures r == SymbolizedDefault(sch, o)
  {
    if !o.Obj? {
      return Ok(o);
    }
    if o.cls !in sch {
      return Err(Unmodelled("class " + o.cls + " is not in the schema"));
    }
    var decl := sch[o.cls];
    if !decl.Record? {
      if o.attrs != [] {
        return Err(TypeError);
      }
      return Ok(Dict([]));
    }
    var desc := decl.descriptor;
    var rv: seq<Entry> := [];
    var i := 0;
    while i < |o.attrs|
      invariant 0 <= i <= |o.attrs|
      invariant rv == EncodeAttrs(sch, desc, o.attrs[..i])
    {
      EncodeAttrsAppend(sch, desc, o.attrs[..i], o.attrs[i]);
      assert o.attrs[..i + 1] == o.attrs[..i] + [o.attrs[i]];
      var out := EncodeAttr(sch, desc, o.attrs[i]);
      if out.Some? {
        rv := rv + [out.value];
      }
      i := i + 1;
    }
    assert o.attrs[..i] == o.attrs;
    return Ok(Dict(rv));
  }

  lemma {:induction false} EncodeAttrsAppend(sch: Schema, desc: map<string, FieldType>, attrs: seq<Entry>, e: Entry)
    ensures EncodeAttrs(sch, desc, attrs + [e]) ==
            EncodeAttrs(sch, desc, attrs) + (match EncodeAttr(sch, desc, e) case Some(x) => [x] case None => [])
  {
    if attrs != [] {
      EncodeAttrsAppend(sch, desc, attrs[1..], e);
      assert (attrs + [e])[1..] == attrs[1..] + [e];
    } else {
      assert [] + [e] == [e];
    }
  }

  /**
   * An enum field holding a declared constant is written as a name that
   * `FromSymbol` turns back into the same constant.
   */
  lemma EnumFieldRoundTrip(sch: Schema, desc: map<string, FieldType>, k: string, v: int)
    requires WellFormed(sch)
    requires k in desc && desc[k].Class? && desc[k].name in sch && sch[desc[k].name].Enum?
    requires exists j :: 0 <= j < |sch[desc[k].name].constants| && sch[desc[k].name].constants[j].value == v
    ensures var out := EncodeAttr(sch, desc, Entry(k, Int(v)));
            out.Some? && out.value.val.Str? &&
            FromSymbol(sch[desc[k].name], out.value.val.s) == Ok(Int(v))
  {
    SymbolRoundTrip(sch[desc[k].name].constants, v);
  }
}
