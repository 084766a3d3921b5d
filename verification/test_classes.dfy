/**
 * The message classes the unit tests declare (`Foo`, `Bar` with a
 * self-referencing list, the enum `Qux`) and what coercing parsed JSON into
 * them gives.
 */
module TestClasses {
  import opened Wrappers
  import opened PyStrings
  import opened Messages

  const FooFields: seq<Entry> := [Entry("x", Int(0))]
  const BarFields: seq<Entry> := [Entry("x", Int(0)), Entry("y", List([]))]

  const Classes: Schema := map[
    MessageClass := Untyped,
    "Foo" := Record(map["x" := IntT], Assigns(FooFields)),
    "Bar" := Record(BarDesc, Assigns(BarFields)),
    "Qux" := Enum([Constant("FOO", 1), Constant("BAR", 2)])]

  /** One step of coercion into a record class: its initializer applied to the coerced entries. */
  lemma RecordStep(sch: Schema, src: Value, cls: string, parent: Option<string>, dest: seq<Entry>)
    requires cls in sch && sch[cls].Record? && src.Dict?
    requires CoerceEntries(sch, src, sch[cls].descriptor, cls, 0) == Ok(dest)
    ensures Coerce(sch, src, Class(cls), parent) == Construct(cls, sch[cls].init, dest)
  {
  }

  /** `Message.Coerce("FOO", Qux)` is the integer `Qux.FOO`. */
  lemma CoerceKnownEnum()
    ensures Coerce(Classes, Str("FOO"), Class("Qux"), None) == Ok(Int(1))
  {
    assert LookupConstant(Classes["Qux"].constants, "FOO") == Some(1);
  }

  /** `Message.Coerce("incorrect value", Qux)` raises a ValueError that names the problem. */
  lemma CoerceUnknownEnum()
    ensures var r := Coerce(Classes, Str("incorrect value"), Class("Qux"), None);
            r.Err? && r.error.ValueError? && IsSubstring("unrecognized symbolic enum value", r.error.msg)
  {
    var cs := Classes["Qux"].constants;
    assert cs[0].name != "incorrect value" && cs[1].name != "incorrect value";
    assert LookupConstant(cs, "incorrect value").None?;
    var msg := UnrecognizedEnumMessage("incorrect value", "Qux");
    assert "unrecognized symbolic enum value" <= msg;
  }

  /** `Foo.FromShallowDict({'y': 3})` is a `Foo` with the default `x` and no `y`. */
  lemma UndeclaredKeyDropped()
    ensures FromShallowDict(Classes, Dict([Entry("y", Int(3))]), "Foo") == Ok(Obj("Foo", FooFields))
  {
    var src := Dict([Entry("y", Int(3))]);
    var desc := map["x" := IntT];
    assert "y" !in desc;
    assert CoerceEntries(Classes, src, desc, "Foo", 1) == Ok([]);
    assert [Entry("y", Int(3))] + [] == [Entry("y", Int(3))];
    assert CoerceEntries(Classes, src, desc, "Foo", 0) == Ok([Entry("y", Int(3))]);
    assert ApplyDefaults(FooFields, [Entry("y", Int(3))]) == FooFields;
  }

  const BarDesc: map<string, FieldType> := map["x" := IntT, "y" := ListOf(Parent)]
  const InnerDict: Value := Dict([Entry("x", Int(4))])
  const InnerBar: Value := Obj("Bar", [Entry("x", Int(4)), Entry("y", List([]))])

  /** The entries of `{'x': 4}` under `Bar`'s descriptor: `x` is an int already. */
  lemma InnerEntries()
    ensures CoerceEntries(Classes, InnerDict, BarDesc, "Bar", 0) == Ok([Entry("x", Int(4))])
  {
    assert Coerce(Classes, Int(4), IntT, Some("Bar")) == Ok(Int(4));
    assert CoerceEntries(Classes, InnerDict, BarDesc, "Bar", 1) == Ok([]);
    assert [Entry("x", Int(4))] + [] == [Entry("x", Int(4))];
  }

  /** `Bar.__init__(x=4)` keeps the given `x` and the default empty `y`. */
  lemma InnerDefaults()
    ensures ApplyDefaults(BarFields, [Entry("x", Int(4))]) == InnerBar.attrs
  {
    assert ApplyDefaults(BarFields[2..], [Entry("x", Int(4))]) == [];
    assert ApplyDefaults(BarFields[1..], [Entry("x", Int(4))]) == [Entry("y", List([]))];
  }

  /** The element `{'x': 4}` of a `Bar`'s `y` list is coerced into a `Bar` through the parent marker. */
  lemma ParentElementIsBar()
    ensures Coerce(Classes, InnerDict, Parent, Some("Bar")) == Ok(InnerBar)
  {
    InnerEntries();
    InnerDefaults();
    assert "Bar" in Classes && Classes["Bar"] == Record(BarDesc, Assigns(BarFields));
    RecordStep(Classes, InnerDict, "Bar", Some("Bar"), [Entry("x", Int(4))]);
  }

  /** The list `[{'x': 4}]` under `[Message.PARENT_TYPE]` becomes a list of one `Bar`. */
  lemma ParentListOfBars()
    ensures Coerce(Classes, List([InnerDict]), ListOf(Parent), Some("Bar")) == Ok(List([InnerBar]))
  {
    ParentElementIsBar();
    var items := List([InnerDict]);
    assert CoerceItems(Classes, items, Parent, Some("Bar"), 1) == Ok([]);
    assert [InnerBar] + [] == [InnerBar];
    assert CoerceItems(Classes, items, Parent, Some("Bar"), 0) == Ok([InnerBar]);
  }

  const OuterDict: Value := Dict([Entry("x", Int(3)), Entry("y", List([InnerDict]))])

  /** The entries of `{'x': 3, 'y': [{'x': 4}]}` under `Bar`'s descriptor. */
  lemma OuterEntries()
    ensures CoerceEntries(Classes, OuterDict, BarDesc, "Bar", 0) ==
            Ok([Entry("x", Int(3)), Entry("y", List([InnerBar]))])
  {
    ParentListOfBars();
    assert Coerce(Classes, Int(3), IntT, Some("Bar")) == Ok(Int(3));
    assert CoerceEntries(Classes, OuterDict, BarDesc, "Bar", 2) == Ok([]);
    assert [Entry("y", List([InnerBar]))] + [] == [Entry("y", List([InnerBar]))];
    assert CoerceEntries(Classes, OuterDict, BarDesc, "Bar", 1) == Ok([Entry("y", List([InnerBar]))]);
    assert [Entry("x", Int(3))] + [Entry("y", List([InnerBar]))] == [Entry("x", Int(3)), Entry("y", List([InnerBar]))];
  }

  const OuterBarFields: seq<Entry> := [Entry("x", Int(3)), Entry("y", List([InnerBar]))]

  /** `Bar.__init__` keeps both given values: neither default survives. */
  lemma OuterDefaults()
    ensures ApplyDefaults(BarFields, OuterBarFields) == OuterBarFields
  {
    assert ApplyDefaults(BarFields[2..], OuterBarFields) == [];
    assert ApplyDefaults(BarFields[1..], OuterBarFields) == [Entry("y", List([InnerBar]))];
  }

  /** Coercing `{'x': 3, 'y': [{'x': 4}]}` into `Bar` builds a `Bar` from the coerced entries. */
  lemma OuterCoerce()
    ensures Coerce(Classes, OuterDict, Class("Bar"), None) == Ok(Obj("Bar", OuterBarFields))
  {
    OuterEntries();
    OuterDefaults();
    assert "Bar" in Classes && Classes["Bar"] == Record(BarDesc, Assigns(BarFields));
    RecordStep(Classes, OuterDict, "Bar", None, OuterBarFields);
  }

  /** `Bar.FromShallowDict({'x': 3, 'y': [{'x': 4}]})`: the element of `y` becomes a `Bar` too. */
  lemma NestedParentRecord()
    ensures FromShallowDict(Classes, OuterDict, "Bar") ==
            Ok(Obj("Bar", [Entry("x", Int(3)), Entry("y", List([InnerBar]))]))
  {
    OuterCoerce();
  }
}
