/**
 * The descriptor-driven message framework: parsed JSON and message instances
 * as one `Value` type, the per-class `DESCRIPTOR` tables as a `Schema`, the
 * recursive `Message.Coerce` that turns parsed JSON into typed records, and
 * the enum helpers `IsEnum`, `ToSymbol` and `FromSymbol`.
 */
module Messages {
  import opened Wrappers
  import opened PyStrings

  /**
   * A Python value: what `json.loads` produces (None, bool, int, str, list,
   * dict) plus instances of message classes, which carry their class name and
   * their `__dict__`.
   */
  datatype Value =
    | Nil
    | Bool(b: bool)
    | Int(i: int)
    | Str(s: string)
    | List(items: seq<Value>)
    | Dict(entries: seq<Entry>)
    | Obj(cls: string, attrs: seq<Entry>)

  /** One key of a dict or of an instance's `__dict__`, in insertion order. */
  datatype Entry = Entry(key: string, val: Value)

  function Keys(es: seq<Entry>): (ks: seq<string>)
    ensures |ks| == |es|
    ensures forall j :: 0 <= j < |es| ==> ks[j] == es[j].key
  {
    if es == [] then [] else [es[0].key] + Keys(es[1..])
  }

  /** The position of the first entry with key `k`, or `|es|` when there is none. */
  function FindKey(es: seq<Entry>, k: string): (n: nat)
    ensures n <= |es|
    ensures n < |es| ==> es[n].key == k
    ensures forall j :: 0 <= j < n ==> es[j].key != k
  {
    if es == [] then 0 else if es[0].key == k then 0 else 1 + FindKey(es[1..], k)
  }

  /** `d.get(k)`: the keys of a dict are distinct, so the first entry is the entry. */
  function Get(es: seq<Entry>, k: string): (r: Option<Value>)
    ensures r.None? <==> k !in Keys(es)
  {
    var n := FindKey(es, k);
    if n < |es| then Some(es[n].val) else None
  }

  /** The first entry with key `k` is the one `d.get(k)` returns. */
  lemma GetAt(es: seq<Entry>, k: string, j: nat)
    requires j < |es| && es[j].key == k
    requires forall i :: 0 <= i < j ==> es[i].key != k
    ensures Get(es, k) == Some(es[j].val)
  {
    var n := FindKey(es, k);
    assert n == j by {
      if n < j {
        assert false;
      }
    }
  }

  /** `d.get(k, default)`. */
  function GetOr(es: seq<Entry>, k: string, default: Value): Value
  {
    match Get(es, k)
    case Some(v) => v
    case None => default
  }

  /** Two entry lists with the same keys in the same order find a key at the same place. */
  lemma FindKeySameKeys(a: seq<Entry>, b: seq<Entry>, k: string)
    requires Keys(a) == Keys(b)
    ensures FindKey(a, k) == FindKey(b, k)
  {
    assert forall j :: 0 <= j < |a| ==> a[j].key == Keys(a)[j] == Keys(b)[j] == b[j].key;
  }

  /** Python truthiness, as `if x:` and `bool(x)` use it. */
  predicate Truthy(v: Value)
  {
    match v
    case Nil => false
    case Bool(b) => b
    case Int(i) => i != 0
    case Str(s) => s != []
    case List(xs) => xs != []
    case Dict(es) => es != []
    case Obj(_, _) => true
  }

  // ---------------------------------------------------------------------------
  // Schema: the DESCRIPTOR of every message class

  /** A `DESCRIPTOR` entry: `int`, `bool`, `str`, a message class, `[T]`, or `[Message.PARENT_TYPE]`'s marker. */
  datatype FieldType =
    | IntT
    | BoolT
    | StrT
    | Class(name: string)
    | ListOf(elem: FieldType)
    | Parent

  /** A named integer constant of an enum class. */
  datatype Constant = Constant(name: string, value: int)

  /**
   * What a class's `__init__` does with its keyword arguments: assign each
   * listed field from `kwargs.get(name, default)` in order, keep `kwargs` as
   * the whole `__dict__`, or (no `__init__` at all) refuse any keyword.
   */
  datatype Init =
    | Assigns(fields: seq<Entry>)
    | KeepAll
    | NoInit

  /**
   * A message class: a record (`DESCRIPTOR` is a dict), an enum
   * (`DESCRIPTOR = int`, with its constants), or the base `Message` itself
   * (`DESCRIPTOR = None`).
   */
  datatype ClassDecl =
    | Record(descriptor: map<string, FieldType>, init: Init)
    | Enum(constants: seq<Constant>)
    | Untyped

  type Schema = map<string, ClassDecl>

  /** The name of the base class, the only one whose `DESCRIPTOR` is None. */
  const MessageClass: string := "Message"

  predicate DistinctNames(cs: seq<Constant>)
  {
    forall i, j :: 0 <= i < j < |cs| ==> cs[i].name != cs[j].name
  }

  /** What Python guarantees of the class table: only `Message` is untyped, and a class body names each constant once. */
  predicate WellFormed(sch: Schema)
  {
    forall n | n in sch ::
      (sch[n].Untyped? ==> n == MessageClass) &&
      (sch[n].Enum? ==> DistinctNames(sch[n].constants))
  }

  /** A value `json.loads` can produce: lists and dicts of primitives, with no message instance anywhere. */
  predicate Plain(v: Value)
  {
    match v
    case Obj(_, _) => false
    case List(items) => forall x | x in items :: Plain(x)
    case Dict(es) => forall e | e in es :: Plain(e.val)
    case _ => true
  }

  // ---------------------------------------------------------------------------
  // Constructors and the builtin conversions

  /** The `__dict__` an `Assigns` initializer builds from its keyword arguments. */
  function ApplyDefaults(fields: seq<Entry>, kwargs: seq<Entry>): (attrs: seq<Entry>)
    ensures Keys(attrs) == Keys(fields)
    ensures forall j :: 0 <= j < |attrs| ==> attrs[j].val == GetOr(kwargs, fields[j].key, fields[j].val)
  {
    if fields == [] then []
    else [Entry(fields[0].key, GetOr(kwargs, fields[0].key, fields[0].val))] + ApplyDefaults(fields[1..], kwargs)
  }

  /** `cls(**kwargs)`. */
  function Construct(cls: string, init: Init, kwargs: seq<Entry>): (r: Result<Value>)
    ensures r.Ok? ==> r.value.Obj? && r.value.cls == cls
    ensures r.Err? <==> init.NoInit? && kwargs != []
    ensures r.Err? ==> r.error == TypeError
  {
    match init
    case Assigns(fields) => Ok(Obj(cls, ApplyDefaults(fields, kwargs)))
    case KeepAll => Ok(Obj(cls, kwargs))
    case NoInit => if kwargs == [] then Ok(Obj(cls, [])) else Err(TypeError)
  }

  /** `int(v)`. */
  function PyInt(v: Value): (r: Result<Value>)
    ensures r.Ok? ==> r.value.Int?
    ensures v.Int? ==> r == Ok(v)
    ensures v.Bool? ==> r == Ok(Int(if v.b then 1 else 0))
    ensures v.Nil? || v.List? || v.Dict? || v.Obj? ==> r == Err(TypeError)
  {
    match v
    case Int(_) => Ok(v)
    case Bool(b) => Ok(Int(if b then 1 else 0))
    case Str(s) =>
      var n :- ParseInt(s);
      Ok(Int(n))
    case _ => Err(TypeError)
  }

  /** `str(v)`; the text of a list, dict or instance is `repr` output, which is not modelled. */
  function PyStr(v: Value): (r: Result<Value>)
    ensures r.Ok? ==> r.value.Str?
    ensures v.Str? ==> r == Ok(v)
    ensures v.Int? ==> r == Ok(Str(IntToString(v.i)))
  {
    match v
    case Nil => Ok(Str("None"))
    case Bool(b) => Ok(Str(if b then "True" else "False"))
    case Int(i) => Ok(Str(IntToString(i)))
    case Str(_) => Ok(v)
    case _ => Err(Unmodelled("str() of a list, dict or message"))
  }

  /** The value of the first constant called `name`, as `hasattr`/`getattr` find it. */
  function LookupConstant(cs: seq<Constant>, name: string): (r: Option<int>)
    ensures r.None? <==> forall j :: 0 <= j < |cs| ==> cs[j].name != name
    ensures r.Some? ==> exists j :: 0 <= j < |cs| && cs[j] == Constant(name, r.value)
  {
    if cs == [] then None
    else if cs[0].name == name then Some(cs[0].value)
    else LookupConstant(cs[1..], name)
  }

  function UnrecognizedEnumMessage(s: string, cls: string): string
  {
    "unrecognized symbolic enum value \"" + s + "\" for " + cls
  }

  /**
   * Coercion into an enum class: a string must name a declared constant and
   * becomes its integer; anything else goes through `int()`.
   */
  function CoerceEnum(cls: string, cs: seq<Constant>, src: Value): (r: Result<Value>)
    ensures r.Ok? ==> r.value.Int?
    ensures src.Str? ==> (r.Ok? <==> exists j :: 0 <= j < |cs| && cs[j].name == src.s)
    ensures src.Str? && r.Ok? ==> exists j :: 0 <= j < |cs| && cs[j] == Constant(src.s, r.value.i)
    ensures src.Str? && r.Err? ==> r.error == ValueError(UnrecognizedEnumMessage(src.s, cls))
    ensures src.Int? ==> r == Ok(src)
  {
    if src.Str? then
      match LookupConstant(cs, src.s)
      case Some(v) => Ok(Int(v))
      case None => Err(ValueError(UnrecognizedEnumMessage(src.s, cls)))
    else PyInt(src)
  }

  // ---------------------------------------------------------------------------
  // Coerce

  /**
   * The shape a coerced value has: the primitive it was converted to, a list
   * of conforming elements, an instance of the target record class, the
   * integer of an enum, a plain `Message` for the untyped class; a parent
   * marker stands for the enclosing record class.
   */
  predicate Conforms(sch: Schema, v: Value, t: FieldType, parent: Option<string>)
    decreases v, if t.Parent? then 1 else 0
  {
    match t
    case IntT => v.Int?
    case BoolT => v.Bool?
    case StrT => v.Str?
    case ListOf(elem) => v.List? && forall x | x in v.items :: Conforms(sch, x, elem, parent)
    case Parent => parent.Some? && Conforms(sch, v, Class(parent.value), parent)
    case Class(name) =>
      (v.Obj? && v.cls == name) ||
      (name in sch && sch[name].Enum? && v.Int?) ||
      (name in sch && sch[name].Untyped? && v.Obj? && v.cls == MessageClass)
  }

  /**
   * `Message.Coerce(source, target_type, parent_class)`. A failed `assert`
   * is AssertionError; a class missing from the schema is reported as
   * unmodelled, since in Python every class exists.
   */
  function Coerce(sch: Schema, src: Value, t: FieldType, parent: Option<string>): (r: Result<Value>)
    ensures r.Ok? ==> Conforms(sch, r.value, t, parent)
    decreases src, 1, if t.Parent? then 1 else 0
  {
    match t
    case ListOf(elem) =>
      if !src.List? then Err(AssertionError)
      else
        var ys :- CoerceItems(sch, src, elem, parent, 0);
        Ok(List(ys))
    case Parent =>
      if parent.None? then Err(AssertionError)
      else Coerce(sch, src, Class(parent.value), parent)
    case Class(name) =>
      if src.Obj? && src.cls == name then Ok(src)
      else if name !in sch then Err(Unmodelled("class " + name + " is not in the schema"))
      else
        (match sch[name]
         case Record(desc, init) =>
           if !src.Dict? then Err(AssertionError)
           else
             var dest :- CoerceEntries(sch, src, desc, name, 0);
             Construct(name, init, dest)
         case Untyped =>
           if !src.Dict? then Err(AssertionError) else Ok(Obj(MessageClass, src.entries))
         case Enum(cs) => CoerceEnum(name, cs, src))
    case StrT => PyStr(src)
    case IntT => PyInt(src)
    case BoolT => Ok(Bool(Truthy(src)))
  }

  /**
   * The list comprehension of the list case, from element `i` on: the first
   * element that fails decides the error; otherwise each element is coerced
   * in place, keeping length and order.
   */
  function CoerceItems(sch: Schema, src: Value, elem: FieldType, parent: Option<string>, i: nat): (r: Result<seq<Value>>)
    requires src.List? && i <= |src.items|
    ensures r.Ok? <==> forall j :: i <= j < |src.items| ==> Coerce(sch, src.items[j], elem, parent).Ok?
    ensures r.Ok? ==> |r.value| == |src.items| - i
    ensures r.Ok? ==> forall j :: 0 <= j < |r.value| ==> Coerce(sch, src.items[i + j], elem, parent) == Ok(r.value[j])
    ensures r.Err? ==> exists j :: i <= j < |src.items| && Coerce(sch, src.items[j], elem, parent) == Err(r.error)
    decreases src, 0, |src.items| - i
  {
    if i == |src.items| then Ok([])
    else
      assert src.items[i] in src.items;
      var y :- Coerce(sch, src.items[i], elem, parent);
      var ys :- CoerceItems(sch, src, elem, parent, i + 1);
      Ok([y] + ys)
  }

  /**
   * The loop of the record case, from entry `i` on: a key the descriptor
   * declares is coerced to its field type with the record as parent, any
   * other key keeps its raw value.
   */
  function CoerceEntries(sch: Schema, src: Value, desc: map<string, FieldType>, cls: string, i: nat): (r: Result<seq<Entry>>)
    requires src.Dict? && i <= |src.entries|
    ensures r.Ok? <==> forall j :: i <= j < |src.entries| && src.entries[j].key in desc ==>
                          Coerce(sch, src.entries[j].val, desc[src.entries[j].key], Some(cls)).Ok?
    ensures r.Ok? ==> Keys(r.value) == Keys(src.entries[i..])
    ensures r.Ok? ==> forall j :: 0 <= j < |r.value| ==>
              (src.entries[i + j].key in desc ==>
                 Coerce(sch, src.entries[i + j].val, desc[src.entries[i + j].key], Some(cls)) == Ok(r.value[j].val)) &&
              (src.entries[i + j].key !in desc ==> r.value[j].val == src.entries[i + j].val)
    decreases src, 0, |src.entries| - i
  {
    if i == |src.entries| then Ok([])
    else
      var e := src.entries[i];
      assert e in src.entries;
      var v := if e.key in desc then Coerce(sch, e.val, desc[e.key], Some(cls)) else Ok(e.val);
      if v.Err? then Err(v.error)
      else
        var rest := CoerceEntries(sch, src, desc, cls, i + 1);
        if rest.Err? then Err(rest.error)
        else
          assert src.entries[i..] == [e] + src.entries[i + 1..];
          Ok([Entry(e.key, v.value)] + rest.value)
  }

  /** `cls.FromShallowDict(d)` and `cls.Make(**d)`: coercion into a class, with no parent. */
  function FromShallowDict(sch: Schema, d: Value, cls: string): (r: Result<Value>)
    ensures r.Ok? ==> Conforms(sch, r.value, Class(cls), None)
  {
    Coerce(sch, d, Class(cls), None)
  }

  // ---------------------------------------------------------------------------
  // Properties of Coerce

  /** A list target maps element by element: same length, same order, and it fails iff an element fails. */
  lemma CoerceList(sch: Schema, xs: seq<Value>, elem: FieldType, parent: Option<string>)
    ensures Coerce(sch, List(xs), ListOf(elem), parent).Ok? <==>
            forall j :: 0 <= j < |xs| ==> Coerce(sch, xs[j], elem, parent).Ok?
    ensures Coerce(sch, List(xs), ListOf(elem), parent).Ok? ==>
            var ys := Coerce(sch, List(xs), ListOf(elem), parent).value;
            ys.List? && |ys.items| == |xs| &&
            forall j :: 0 <= j < |xs| ==> Coerce(sch, xs[j], elem, parent) == Ok(ys.items[j])
  {
    var r := CoerceItems(sch, List(xs), elem, parent, 0);
    if r.Ok? {
      assert Coerce(sch, List(xs), ListOf(elem), parent) == Ok(List(r.value));
    }
  }

  /** A list target refuses anything that is not a list. */
  lemma CoerceListNeedsList(sch: Schema, src: Value, elem: FieldType, parent: Option<string>)
    requires !src.List?
    ensures Coerce(sch, src, ListOf(elem), parent) == Err(AssertionError)
  {
  }

  /** The parent marker needs a parent, and then means the parent's class. */
  lemma CoerceParent(sch: Schema, src: Value, parent: Option<string>)
    ensures parent.None? ==> Coerce(sch, src, Parent, parent) == Err(AssertionError)
    ensures parent.Some? ==> Coerce(sch, src, Parent, parent) == Coerce(sch, src, Class(parent.value), parent)
  {
  }

  /**
   * Coerce is idempotent: a value it produced is a fixed point, because
   * instances of the target class, enum integers and converted primitives
   * all come back unchanged.
   */
  lemma {:induction false} CoerceIdempotent(sch: Schema, src: Value, t: FieldType, parent: Option<string>)
    requires WellFormed(sch)
    requires Coerce(sch, src, t, parent).Ok?
    ensures Coerce(sch, Coerce(sch, src, t, parent).value, t, parent) == Coerce(sch, src, t, parent)
    decreases src, if t.Parent? then 1 else 0
  {
    var y := Coerce(sch, src, t, parent).value;
    match t
    case ListOf(elem) =>
      CoerceList(sch, src.items, elem, parent);
      assert src == List(src.items);
      var ys := y.items;
      forall j | 0 <= j < |ys|
        ensures Coerce(sch, ys[j], elem, parent) == Ok(ys[j])
      {
        assert src.items[j] in src.items;
        CoerceIdempotent(sch, src.items[j], elem, parent);
      }
      CoerceList(sch, ys, elem, parent);
      var zs := Coerce(sch, List(ys), ListOf(elem), parent).value;
      assert zs.items == ys;
    case Parent =>
      CoerceIdempotent(sch, src, Class(parent.value), parent);
    case Class(name) =>
      if !(src.Obj? && src.cls == name) {
        match sch[name]
        case Record(_, _) =>
        case Untyped =>
          assert name == MessageClass;
        case Enum(_) =>
      }
    case StrT =>
    case IntT =>
    case BoolT =>
  }

  /** An instance of the target class is returned as it is. */
  lemma CoerceSameClass(sch: Schema, cls: string, attrs: seq<Entry>, parent: Option<string>)
    ensures Coerce(sch, Obj(cls, attrs), Class(cls), parent) == Ok(Obj(cls, attrs))
  {
  }

  /**
   * A typed record keeps exactly the fields its `__init__` assigns: a key the
   * descriptor declares arrives coerced, a key it does not declare arrives raw
   * and is dropped unless the initializer assigns it, and a missing key takes
   * the field's default.
   */
  lemma CoerceRecord(sch: Schema, es: seq<Entry>, cls: string, parent: Option<string>)
    requires cls in sch && sch[cls].Record? && sch[cls].init.Assigns?
    requires Coerce(sch, Dict(es), Class(cls), parent).Ok?
    ensures var o := Coerce(sch, Dict(es), Class(cls), parent).value;
            var desc, fields := sch[cls].descriptor, sch[cls].init.fields;
            o.Obj? && o.cls == cls && Keys(o.attrs) == Keys(fields) &&
            forall j :: 0 <= j < |fields| ==>
              var k := fields[j].key;
              (k !in Keys(es) ==> o.attrs[j].val == fields[j].val) &&
              (k in Keys(es) && k !in desc ==> o.attrs[j].val == Get(es, k).value) &&
              (k in Keys(es) && k in desc ==> Coerce(sch, Get(es, k).value, desc[k], Some(cls)) == Ok(o.attrs[j].val))
  {
    var desc, fields := sch[cls].descriptor, sch[cls].init.fields;
    var dest := CoerceEntries(sch, Dict(es), desc, cls, 0).value;
    assert Dict(es).entries[0..] == es;
    var o := Coerce(sch, Dict(es), Class(cls), parent).value;
    assert o == Obj(cls, ApplyDefaults(fields, dest));
    forall j | 0 <= j < |fields|
      ensures var k := fields[j].key;
              (k !in Keys(es) ==> o.attrs[j].val == fields[j].val) &&
              (k in Keys(es) && k !in desc ==> o.attrs[j].val == Get(es, k).value) &&
              (k in Keys(es) && k in desc ==> Coerce(sch, Get(es, k).value, desc[k], Some(cls)) == Ok(o.attrs[j].val))
    {
      var k := fields[j].key;
      FindKeySameKeys(dest, es, k);
      assert o.attrs[j].val == GetOr(dest, k, fields[j].val);
    }
  }

  /**
   * One attribute of a typed record: a field `__init__` does not assign is
   * absent, an assigned field missing from the source has its default, and
   * a declared field present in the source holds the source's value coerced
   * to the field type.
   */
  lemma CoerceRecordAttr(sch: Schema, es: seq<Entry>, cls: string, parent: Option<string>, k: string)
    requires cls in sch && sch[cls].Record? && sch[cls].init.Assigns?
    requires Coerce(sch, Dict(es), Class(cls), parent).Ok?
    ensures var o := Coerce(sch, Dict(es), Class(cls), parent).value;
            var desc, fields := sch[cls].descriptor, sch[cls].init.fields;
            (k !in Keys(fields) ==> Get(o.attrs, k).None?) &&
            (k !in Keys(es) ==> Get(o.attrs, k) == Get(fields, k)) &&
            (k in Keys(fields) && k in Keys(es) && k in desc ==>
               Get(o.attrs, k).Some? && Coerce(sch, Get(es, k).value, desc[k], Some(cls)) == Ok(Get(o.attrs, k).value))
  {
    CoerceRecord(sch, es, cls, parent);
    var o := Coerce(sch, Dict(es), Class(cls), parent).value;
    var fields := sch[cls].init.fields;
    FindKeySameKeys(o.attrs, fields, k);
    var j := FindKey(fields, k);
    if j < |fields| {
      assert fields[j].key == k;
    }
  }

  /** A record whose `__init__` keeps all keyword arguments keeps every key of the source, in order. */
  lemma CoerceKeepAll(sch: Schema, es: seq<Entry>, cls: string, parent: Option<string>)
    requires cls in sch && sch[cls].Record? && sch[cls].init.KeepAll?
    requires Coerce(sch, Dict(es), Class(cls), parent).Ok?
    ensures var o := Coerce(sch, Dict(es), Class(cls), parent).value;
            o.Obj? && o.cls == cls && Keys(o.attrs) == Keys(es)
  {
    assert Dict(es).entries[0..] == es;
  }

  /** A class without `__init__` accepts only an empty dict. */
  lemma CoerceNoInit(sch: Schema, es: seq<Entry>, cls: string, parent: Option<string>)
    requires cls in sch && sch[cls].Record? && sch[cls].init.NoInit?
    ensures Coerce(sch, Dict(es), Class(cls), parent).Ok? ==> es == []
    ensures es == [] ==> Coerce(sch, Dict(es), Class(cls), parent) == Ok(Obj(cls, []))
  {
    if Coerce(sch, Dict(es), Class(cls), parent).Ok? {
      var dest := CoerceEntries(sch, Dict(es), sch[cls].descriptor, cls, 0).value;
      assert Keys(dest) == Keys(Dict(es).entries[0..]);
      assert |Keys(es)| == |es|;
    }
  }

  /**
   * Coercion into an enum class: a declared name gives its constant, an
   * unknown name raises "unrecognized symbolic enum value", an integer passes
   * through `int()` unchanged.
   */
  lemma CoerceIntoEnum(sch: Schema, cls: string, src: Value, parent: Option<string>)
    requires WellFormed(sch)
    requires cls in sch && sch[cls].Enum?
    ensures var cs := sch[cls].constants;
            forall j :: 0 <= j < |cs| ==> Coerce(sch, Str(cs[j].name), Class(cls), parent) == Ok(Int(cs[j].value))
    ensures src.Str? && (forall j :: 0 <= j < |sch[cls].constants| ==> sch[cls].constants[j].name != src.s) ==>
            Coerce(sch, src, Class(cls), parent) == Err(ValueError(UnrecognizedEnumMessage(src.s, cls)))
    ensures src.Int? ==> Coerce(sch, src, Class(cls), parent) == Ok(src)
  {
    var cs := sch[cls].constants;
    forall j | 0 <= j < |cs|
      ensures Coerce(sch, Str(cs[j].name), Class(cls), parent) == Ok(Int(cs[j].value))
    {
      var r := Coerce(sch, Str(cs[j].name), Class(cls), parent);
      var k :| 0 <= k < |cs| && cs[k] == Constant(cs[j].name, r.value.i);
      assert cs[k].name == cs[j].name;
    }
  }

  // ---------------------------------------------------------------------------
  // Enum classes: IsEnum, ToSymbol, FromSymbol

  /** `cls.IsEnum()`: the `DESCRIPTOR` is not a dict (an enum, or the base class). */
  function IsEnum(decl: ClassDecl): (r: bool)
    ensures r <==> !decl.Record?
  {
    match decl
    case Record(_, _) => false
    case Enum(_) => true
    case Untyped => true
  }

  /** Python's `==` between a constant and a value: `True == 1` and `False == 0`. */
  predicate EqualsConstant(v: Value, c: int)
  {
    (v.Int? && v.i == c) || (v.Bool? && (if v.b then 1 else 0) == c)
  }

  /** The first constant, in declaration order, that equals `v`. */
  function FirstEqual(cs: seq<Constant>, v: Value): (r: Option<nat>)
    ensures r.Some? ==> r.value < |cs| && EqualsConstant(v, cs[r.value].value)
    ensures r.Some? ==> forall j :: 0 <= j < r.value ==> !EqualsConstant(v, cs[j].value)
    ensures r.None? ==> forall j :: 0 <= j < |cs| ==> !EqualsConstant(v, cs[j].value)
  {
    if cs == [] then None
    else if EqualsConstant(v, cs[0].value) then Some(0)
    else match FirstEqual(cs[1..], v)
      case Some(n) => Some(n + 1)
      case None => None
  }

  /**
   * `cls.ToSymbol(v)`: the name of the first declared constant equal to `v`,
   * or `v` itself when no constant is. Asserts that the class is an enum.
   */
  function ToSymbol(decl: ClassDecl, v: Value): (r: Result<Value>)
    ensures r.Err? <==> decl.Record?
    ensures r.Err? ==> r.error == AssertionError
    ensures decl.Enum? ==> r.Ok? && (r.value == v || r.value.Str?)
  {
    match decl
    case Record(_, _) => Err(AssertionError)
    case Untyped => Ok(v)
    case Enum(cs) =>
      match FirstEqual(cs, v)
      case Some(n) => Ok(Str(cs[n].name))
      case None => Ok(v)
  }

  /** `cls.FromSymbol(s)`: the constant called `s`; KeyError when there is none. */
  function FromSymbol(decl: ClassDecl, s: string): (r: Result<Value>)
    ensures r.Err? <==> decl.Record? || !decl.Enum? || forall j :: 0 <= j < |decl.constants| ==> decl.constants[j].name != s
    ensures decl.Record? ==> r == Err(AssertionError)
    ensures r.Ok? ==> exists j :: 0 <= j < |decl.constants| && r.value.Int? && decl.constants[j] == Constant(s, r.value.i)
  {
    match decl
    case Record(_, _) => Err(AssertionError)
    case Untyped => Err(KeyError)
    case Enum(cs) =>
      match LookupConstant(cs, s)
      case Some(v) => Ok(Int(v))
      case None => Err(KeyError)
  }

  /** For a declared constant, `FromSymbol(ToSymbol(v)) == v`. */
  lemma {:induction false} SymbolRoundTrip(cs: seq<Constant>, v: int)
    requires DistinctNames(cs)
    requires exists j :: 0 <= j < |cs| && cs[j].value == v
    ensures ToSymbol(Enum(cs), Int(v)).Ok? && ToSymbol(Enum(cs), Int(v)).value.Str?
    ensures FromSymbol(Enum(cs), ToSymbol(Enum(cs), Int(v)).value.s) == Ok(Int(v))
  {
    var j :| 0 <= j < |cs| && cs[j].value == v;
    assert EqualsConstant(Int(v), cs[j].value);
    var n := FirstEqual(cs, Int(v)).value;
    var name := cs[n].name;
    var k :| 0 <= k < |cs| && cs[k] == Constant(name, FromSymbol(Enum(cs), name).value.i);
    assert cs[k].name == cs[n].name;
  }

  /** A value that no constant equals comes back unchanged from `ToSymbol`. */
  lemma ToSymbolUndeclared(cs: seq<Constant>, v: Value)
    requires forall j :: 0 <= j < |cs| ==> !EqualsConstant(v, cs[j].value)
    ensures ToSymbol(Enum(cs), v) == Ok(v)
  {
  }

  /** For a declared name whose value no earlier constant shares, `ToSymbol(FromSymbol(s)) == s`. */
  lemma {:induction false} SymbolRoundTripByName(cs: seq<Constant>, j: nat)
    requires DistinctNames(cs)
    requires j < |cs|
    requires forall i :: 0 <= i < j ==> cs[i].value != cs[j].value
    ensures FromSymbol(Enum(cs), cs[j].name) == Ok(Int(cs[j].value))
    ensures ToSymbol(Enum(cs), Int(cs[j].value)) == Ok(Str(cs[j].name))
  {
    var r := FromSymbol(Enum(cs), cs[j].name);
    var k :| 0 <= k < |cs| && cs[k] == Constant(cs[j].name, r.value.i);
    assert cs[k].name == cs[j].name;
    assert EqualsConstant(Int(cs[j].value), cs[j].value);
    var n := FirstEqual(cs, Int(cs[j].value)).value;
    assert EqualsConstant(Int(cs[j].value), cs[n].value);
  }
}
