/**
 * Flattening a message into the ordered `(key, value)` pairs of a URL query:
 * `Message.ToQueryString`, `Message.AsQueryString` (fields in ascending name
 * order, nested messages between `b` and `e` markers) and the override of
 * `AnnotationRequest.AsQueryString` that always sends an `md5` pair.
 */
module QueryStrings {
  import opened Wrappers
  import opened PyStrings
  import opened Messages

  type Pair = (string, string)

  // ---------------------------------------------------------------------------
  // sorted(self.__dict__.items())

  /** Adjacent keys are in ascending order. */
  predicate SortedByKey(es: seq<Entry>)
  {
    forall i :: 0 < i < |es| ==> LexLeq(es[i - 1].key, es[i].key)
  }

  function InsertByKey(e: Entry, es: seq<Entry>): (r: seq<Entry>)
    requires SortedByKey(es)
    ensures SortedByKey(r)
    ensures multiset(r) == multiset(es) + multiset{e}
    ensures |r| == |es| + 1
    ensures r[0] == e || (es != [] && r[0] == es[0])
  {
    if es == [] || LexLeq(e.key, es[0].key) then [e] + es
    else
      LexLeqTotal(e.key, es[0].key);
      var rest := InsertByKey(e, es[1..]);
      assert es == [es[0]] + es[1..];
      [es[0]] + rest
  }

  /**
   * The order `sorted` gives to the items of a `__dict__`: the keys of a
   * `__dict__` are distinct, so tuples compare by key alone.
   */
  function SortByKey(es: seq<Entry>): (r: seq<Entry>)
    ensures SortedByKey(r)
    ensures multiset(r) == multiset(es)
  {
    if es == [] then []
    else
      assert es == [es[0]] + es[1..];
      InsertByKey(es[0], SortByKey(es[1..]))
  }

  /** Adjacent order is the whole order: every earlier key is at most every later one. */
  lemma {:induction false} SortedByKeyPairwise(es: seq<Entry>, i: nat, j: nat)
    requires SortedByKey(es)
    requires i <= j < |es|
    ensures LexLeq(es[i].key, es[j].key)
    decreases j - i
  {
    if i == j {
      LexLeqReflexive(es[i].key);
    } else {
      SortedByKeyPairwise(es, i, j - 1);
      LexLeqTransitive(es[i].key, es[j - 1].key, es[j].key);
    }
  }

  lemma {:induction false} LexLeqReflexive(a: string)
    ensures LexLeq(a, a)
  {
    if a != [] {
      LexLeqReflexive(a[1..]);
    }
  }

  // ---------------------------------------------------------------------------
  // The encoding

  /** Whether a message instance occurs anywhere inside `v`. */
  predicate HasMessage(v: Value)
  {
    match v
    case Obj(_, _) => true
    case List(items) => exists x | x in items :: HasMessage(x)
    case _ => false
  }

  /**
   * `Message.ToQueryString(k, o)`. None, `''` and `[]` give no pair, a bool
   * gives `true`/`false`, a list repeats its key for each element, a message
   * is wrapped in `(k, 'b')` and `(k, 'e')`. The text `str()` gives a dict is
   * not modelled.
   */
  function ToQueryString(k: string, o: Value): (r: Result<seq<Pair>>)
    ensures o.Nil? || o == Str([]) || o == List([]) ==> r == Ok([])
    ensures o.Bool? ==> r == Ok([(k, if o.b then "true" else "false")])
    ensures o.Obj? && r.Ok? ==> |r.value| >= 2 && r.value[0] == (k, "b") && r.value[|r.value| - 1] == (k, "e")
    ensures r.Ok? && !HasMessage(o) ==> forall p | p in r.value :: p.0 == k
    decreases o, 4
  {
    match o
    case Nil => Ok([])
    case Obj(_, _) =>
      var inner :- AsQueryString(o);
      Ok([(k, "b")] + inner + [(k, "e")])
    case Bool(b) => Ok([(k, if b then "true" else "false")])
    case List(_) => ListQuery(k, o, 0)
    case Str(s) => if s == [] then Ok([]) else Ok([(k, s)])
    case Int(i) => Ok([(k, IntToString(i))])
    case Dict(_) => Err(Unmodelled("str() of a dict"))
  }

  /** The loop of the list case, from element `i` on. */
  function ListQuery(k: string, o: Value, i: nat): (r: Result<seq<Pair>>)
    requires o.List? && i <= |o.items|
    ensures r.Ok? && !HasMessage(o) ==> forall p | p in r.value :: p.0 == k
    decreases o, 3, |o.items| - i
  {
    if i == |o.items| then Ok([])
    else
      assert o.items[i] in o.items;
      var head :- ToQueryString(k, o.items[i]);
      var tail :- ListQuery(k, o, i + 1);
      Ok(head + tail)
  }

  /** `o.AsQueryString()`, dispatched on the class of `o`. */
  function AsQueryString(o: Value): (r: Result<seq<Pair>>)
    requires o.Obj?
    decreases o, 3
  {
    if o.cls == "AnnotationRequest" then AnnotationRequestQuery(o) else MessageQuery(o)
  }

  /** `Message.AsQueryString(self)`: the pairs of every field, fields in ascending name order. */
  function MessageQuery(o: Value): (r: Result<seq<Pair>>)
    requires o.Obj?
    decreases o, 1
  {
    var sorted := SortByKey(o.attrs);
    assert forall e | e in sorted :: e in o.attrs by {
      assert forall e | e in sorted :: e in multiset(sorted);
    }
    EntriesQuery(o, sorted, 0)
  }

  /** The loop of `Message.AsQueryString`, from item `i` of the sorted items on. */
  function EntriesQuery(o: Value, items: seq<Entry>, i: nat): (r: Result<seq<Pair>>)
    requires o.Obj? && i <= |items|
    requires forall e | e in items :: e in o.attrs
    decreases o, 0, |items| - i
  {
    if i == |items| then Ok([])
    else
      assert items[i] in o.attrs;
      var head :- ToQueryString(items[i].key, items[i].val);
      var tail :- EntriesQuery(o, items, i + 1);
      Ok(head + tail)
  }

  /**
   * `AnnotationRequest.AsQueryString`: the generic pairs, and when `md5` is
   * falsy, `('md5', '')` inserted right after the first `('file_spec', 'e')`
   * (ValueError when there is none). A truthy `md5` leaves the pairs as they are.
   */
  function AnnotationRequestQuery(o: Value): (r: Result<seq<Pair>>)
    requires o.Obj?
    ensures MessageQuery(o).Err? ==> r == MessageQuery(o)
    ensures MessageQuery(o).Ok? && Get(o.attrs, "md5").None? ==> r == Err(AttributeError)
    ensures MessageQuery(o).Ok? && Get(o.attrs, "md5").Some? && Truthy(Get(o.attrs, "md5").value) ==> r == MessageQuery(o)
    ensures MessageQuery(o).Ok? && Get(o.attrs, "md5").Some? && !Truthy(Get(o.attrs, "md5").value) ==>
              var g := MessageQuery(o).value;
              (r.Err? <==> ("file_spec", "e") !in g) &&
              (r.Ok? ==> exists n :: 0 <= n < |g| && g[n] == ("file_spec", "e") && ("file_spec", "e") !in g[..n] &&
                                     r.value == g[..n + 1] + [("md5", "")] + g[n + 1..])
    decreases o, 2
  {
    var qs :- MessageQuery(o);
    match Get(o.attrs, "md5")
    case None => Err(AttributeError)
    case Some(md5) =>
      if Truthy(md5) then Ok(qs)
      else
        var idx := IndexOf(qs, ("file_spec", "e"));
        if idx == |qs| then Err(ValueError("('file_spec', 'e') is not in list"))
        else
          assert ("file_spec", "e") !in qs[..idx];
          Ok(qs[..idx + 1] + [("md5", "")] + qs[idx + 1..])
  }

  // ---------------------------------------------------------------------------
  // The imperative originals

  /** `Prepend(vs, r)`: `vs` followed by the pairs of `r`, or the error of `r`. */
  function Prepend(vs: seq<Pair>, r: Result<seq<Pair>>): Result<seq<Pair>>
  {
    if r.Ok? then Ok(vs + r.value) else r
  }

  /** One step of the loop: the pairs of item `i`, then those of the rest. */
  lemma EntriesQueryStep(o: Value, items: seq<Entry>, i: nat, values: seq<Pair>)
    requires o.Obj? && i < |items|
    requires forall e | e in items :: e in o.attrs
    requires ToQueryString(items[i].key, items[i].val).Ok?
    ensures Prepend(values, EntriesQuery(o, items, i)) ==
            Prepend(values + ToQueryString(items[i].key, items[i].val).value, EntriesQuery(o, items, i + 1))
  {
    var part := ToQueryString(items[i].key, items[i].val).value;
    var rest := EntriesQuery(o, items, i + 1);
    if rest.Ok? {
      assert values + (part + rest.value) == (values + part) + rest.value;
    }
  }

  /** `Message.AsQueryString` as written: extend `values` with the pairs of each sorted item. */
  method MessageAsQueryString(o: Value) returns (r: Result<seq<Pair>>)
    requires o.Obj?
    ensures r == MessageQuery(o)
  {
    var items := SortByKey(o.attrs);
    assert forall e | e in items :: e in o.attrs by {
      assert forall e | e in items :: e in multiset(items);
    }
    var values: seq<Pair> := [];
    assert MessageQuery(o) == EntriesQuery(o, items, 0);
    assert EntriesQuery(o, items, 0).Ok? ==> [] + EntriesQuery(o, items, 0).value == EntriesQuery(o, items, 0).value;
    assert MessageQuery(o) == Prepend(values, EntriesQuery(o, items, 0));
    var i := 0;
    while i < |items|
      invariant 0 <= i <= |items|
      invariant MessageQuery(o) == Prepend(values, EntriesQuery(o, items, i))
    {
      var part := ToQueryString(items[i].key, items[i].val);
      if part.Err? {
        return Err(part.error);
      }
      EntriesQueryStep(o, items, i, values);
      assert MessageQuery(o) == Prepend(values + part.value, EntriesQuery(o, items, i + 1));
      values := values + part.value;
      i := i + 1;
    }
    assert values + [] == values;
    return Ok(values);
  }

  /** `AnnotationRequest.AsQueryString` as written: `qs.insert(qs.index(('file_spec', 'e')) + 1, ('md5', ''))`. */
  method AnnotationRequestAsQueryString(o: Value) returns (r: Result<seq<Pair>>)
    requires o.Obj?
    ensures r == AnnotationRequestQuery(o)
  {
    var qs := MessageAsQueryString(o);
    if qs.Err? {
      return qs;
    }
    var md5 := Get(o.attrs, "md5");
    if md5.None? {
      return Err(AttributeError);
    }
    var values := qs.value;
    if !Truthy(md5.value) {
      var idx := 0;
      while idx < |values| && values[idx] != ("file_spec", "e")
        invariant 0 <= idx <= |values|
        invariant forall j :: 0 <= j < idx ==> values[j] != ("file_spec", "e")
      {
        idx := idx + 1;
      }
      if idx == |values| {
        return Err(ValueError("('file_spec', 'e') is not in list"));
      }
      assert idx == IndexOf(values, ("file_spec", "e"));
      values := values[..idx + 1] + [("md5", "")] + values[idx + 1..];
    }
    return Ok(values);
  }

  // ---------------------------------------------------------------------------
  // Balanced markers

  /**
   * Replays the `b`/`e` markers of `qs` against a stack of open keys; None
   * when an end marker does not close the innermost open key.
   */
  function Replay(qs: seq<Pair>, stack: seq<string>): Option<seq<string>>
  {
    if qs == [] then Some(stack)
    else if qs[0].1 == "b" then Replay(qs[1..], [qs[0].0] + stack)
    else if qs[0].1 == "e" then
      if stack != [] && stack[0] == qs[0].0 then Replay(qs[1..], stack[1..]) else None
    else Replay(qs[1..], stack)
  }

  /** Every `(k, 'b')` is closed by a matching `(k, 'e')`, properly nested. */
  predicate Balanced(qs: seq<Pair>)
  {
    Replay(qs, []) == Some([])
  }

  lemma {:induction false} ReplayAppend(a: seq<Pair>, b: seq<Pair>, s: seq<string>)
    ensures Replay(a + b, s) == if Replay(a, s).Some? then Replay(b, Replay(a, s).value) else None
  {
    if a == [] {
      assert a + b == b;
    } else {
      assert (a + b)[0] == a[0];
      assert (a + b)[1..] == a[1..] + b;
      if a[0].1 == "b" {
        ReplayAppend(a[1..], b, [a[0].0] + s);
      } else if a[0].1 == "e" {
        if s != [] && s[0] == a[0].0 {
          ReplayAppend(a[1..], b, s[1..]);
        }
      } else {
        ReplayAppend(a[1..], b, s);
      }
    }
  }

  /** A run that succeeds on a stack succeeds on any deeper stack, leaving the extra part untouched. */
  lemma {:induction false} ReplayDeeper(a: seq<Pair>, u: seq<string>, s: seq<string>)
    requires Replay(a, u).Some?
    ensures Replay(a, u + s) == Some(Replay(a, u).value + s)
  {
    if a != [] {
      if a[0].1 == "b" {
        ReplayDeeper(a[1..], [a[0].0] + u, s);
        assert [a[0].0] + (u + s) == ([a[0].0] + u) + s;
      } else if a[0].1 == "e" {
        assert (u + s)[1..] == u[1..] + s;
        ReplayDeeper(a[1..], u[1..], s);
      } else {
        ReplayDeeper(a[1..], u, s);
      }
    }
  }

  lemma BalancedConcat(a: seq<Pair>, b: seq<Pair>)
    requires Balanced(a) && Balanced(b)
    ensures Balanced(a + b)
  {
    ReplayAppend(a, b, []);
  }

  lemma BalancedWrap(k: string, inner: seq<Pair>)
    requires Balanced(inner)
    ensures Balanced([(k, "b")] + inner + [(k, "e")])
  {
    var qs := [(k, "b")] + inner + [(k, "e")];
    assert qs[0] == (k, "b") && qs[1..] == inner + [(k, "e")];
    assert "b" != "e" && [k] + [] == [k];
    assert Replay(qs, []) == Replay(inner + [(k, "e")], [k]);
    ReplayDeeper(inner, [], [k]);
    assert [] + [k] == [k];
    assert Replay(inner, [k]) == Some([k]);
    ReplayAppend(inner, [(k, "e")], [k]);
    assert [(k, "e")][1..] == [] && [k][1..] == [];
    assert Replay([(k, "e")], [k]) == Replay([], []);
  }

  /** A pair that is not a marker does not disturb the balance wherever it is inserted. */
  lemma BalancedInsert(a: seq<Pair>, p: Pair, b: seq<Pair>)
    requires Balanced(a + b)
    requires p.1 != "b" && p.1 != "e"
    ensures Balanced(a + [p] + b)
  {
    ReplayAppend(a, b, []);
    ReplayAppend(a, [p] + b, []);
    assert a + [p] + b == a + ([p] + b);
    assert ([p] + b)[1..] == b;
  }

  /** No string `'b'` or `'e'` occurs as a value inside `v`, so every marker pair comes from a message. */
  predicate NoMarkerStrings(v: Value)
  {
    match v
    case Str(s) => s != "b" && s != "e"
    case List(items) => forall x | x in items :: NoMarkerStrings(x)
    case Obj(_, attrs) => forall e | e in attrs :: NoMarkerStrings(e.val)
    case _ => true
  }

  /** The markers of an encoding are balanced and nested, whatever the nesting of messages and lists. */
  lemma {:induction false} QueryBalanced(k: string, o: Value)
    requires NoMarkerStrings(o)
    requires ToQueryString(k, o).Ok?
    ensures Balanced(ToQueryString(k, o).value)
    decreases o, 4
  {
    match o
    case Obj(_, _) =>
      AsQueryBalanced(o);
      BalancedWrap(k, AsQueryString(o).value);
    case List(_) =>
      ListQueryBalanced(k, o, 0);
    case Str(s) =>
    case Int(i) =>
      assert IntToString(i) != "b" && IntToString(i) != "e" by {
        if i < 0 { assert IntToString(i)[0] == '-'; } else { assert '0' <= IntToString(i)[0] <= '9'; }
      }
    case Bool(_) =>
    case Nil =>
  }

  lemma {:induction false} ListQueryBalanced(k: string, o: Value, i: nat)
    requires o.List? && i <= |o.items|
    requires NoMarkerStrings(o)
    requires ListQuery(k, o, i).Ok?
    ensures Balanced(ListQuery(k, o, i).value)
    decreases o, 3, |o.items| - i
  {
    if i < |o.items| {
      assert o.items[i] in o.items;
      var head := ToQueryString(k, o.items[i]).value;
      var tail := ListQuery(k, o, i + 1).value;
      assert ListQuery(k, o, i).value == head + tail;
      QueryBalanced(k, o.items[i]);
      ListQueryBalanced(k, o, i + 1);
      BalancedConcat(head, tail);
    } else {
      assert ListQuery(k, o, i).value == [];
      assert Replay([], []) == Some([]);
    }
  }

  lemma {:induction false} AsQueryBalanced(o: Value)
    requires o.Obj? && NoMarkerStrings(o)
    requires AsQueryString(o).Ok?
    ensures Balanced(AsQueryString(o).value)
    decreases o, 3
  {
    MessageQueryBalanced(o);
    if o.cls == "AnnotationRequest" {
      AnnotationQueryBalanced(o);
    }
  }

  /** Inserting `('md5', '')` keeps a balanced query balanced. */
  lemma AnnotationQueryBalanced(o: Value)
    requires o.Obj? && MessageQuery(o).Ok? && Balanced(MessageQuery(o).value)
    requires AnnotationRequestQuery(o).Ok?
    ensures Balanced(AnnotationRequestQuery(o).value)
  {
    var g := MessageQuery(o).value;
    var md5 := Get(o.attrs, "md5").value;
    if !Truthy(md5) {
      var idx := IndexOf(g, ("file_spec", "e"));
      assert AnnotationRequestQuery(o).value == g[..idx + 1] + [("md5", "")] + g[idx + 1..];
      assert g == g[..idx + 1] + g[idx + 1..];
      BalancedInsert(g[..idx + 1], ("md5", ""), g[idx + 1..]);
    }
  }

  lemma {:induction false} MessageQueryBalanced(o: Value)
    requires o.Obj? && NoMarkerStrings(o)
    requires MessageQuery(o).Ok?
    ensures Balanced(MessageQuery(o).value)
    decreases o, 1
  {
    var sorted := SortByKey(o.attrs);
    assert forall e | e in sorted :: e in o.attrs by {
      assert forall e | e in sorted :: e in multiset(sorted);
    }
    EntriesQueryBalanced(o, sorted, 0);
  }

  lemma {:induction false} EntriesQueryBalanced(o: Value, items: seq<Entry>, i: nat)
    requires o.Obj? && i <= |items| && NoMarkerStrings(o)
    requires forall e | e in items :: e in o.attrs
    requires EntriesQuery(o, items, i).Ok?
    ensures Balanced(EntriesQuery(o, items, i).value)
    decreases o, 0, |items| - i
  {
    if i < |items| {
      assert items[i] in o.attrs;
      var head := ToQueryString(items[i].key, items[i].val).value;
      var tail := EntriesQuery(o, items, i + 1).value;
      assert EntriesQuery(o, items, i).value == head + tail;
      QueryBalanced(items[i].key, items[i].val);
      EntriesQueryBalanced(o, items, i + 1);
      BalancedConcat(head, tail);
    } else {
      assert EntriesQuery(o, items, i).value == [];
      assert Replay([], []) == Some([]);
    }
  }

  // ---------------------------------------------------------------------------
  // Field order

  /** A field that gives at most one pair: a primitive. */
  predicate Primitive(v: Value)
  {
    v.Nil? || v.Bool? || v.Int? || v.Str?
  }

  function PairKeys(qs: seq<Pair>): (ks: seq<string>)
    ensures |ks| == |qs|
    ensures forall j :: 0 <= j < |qs| ==> ks[j] == qs[j].0
  {
    if qs == [] then [] else [qs[0].0] + PairKeys(qs[1..])
  }

  predicate Ascending(ks: seq<string>)
  {
    forall i :: 0 < i < |ks| ==> LexLeq(ks[i - 1], ks[i])
  }

  /** A primitive field gives at most one pair, under its own key. */
  lemma PrimitiveQuery(k: string, v: Value)
    requires Primitive(v)
    ensures ToQueryString(k, v).Ok?
    ensures |ToQueryString(k, v).value| <= 1
    ensures forall p | p in ToQueryString(k, v).value :: p.0 == k
  {
  }

  /** Prepending keys no greater than the first key of an ascending run keeps it ascending. */
  lemma AscendingPrepend(head: seq<Pair>, tail: seq<Pair>, k: string)
    requires |head| <= 1 && forall p | p in head :: p.0 == k
    requires forall p | p in tail :: LexLeq(k, p.0)
    requires Ascending(PairKeys(tail))
    ensures Ascending(PairKeys(head + tail))
  {
    var all := head + tail;
    forall j | 0 < j < |all| ensures LexLeq(PairKeys(all)[j - 1], PairKeys(all)[j]) {
      if j >= |head| + 1 {
        assert all[j - 1] == tail[j - 1 - |head|] && all[j] == tail[j - |head|];
        assert PairKeys(tail)[j - 1 - |head|] == tail[j - 1 - |head|].0;
      } else {
        assert all[j] == tail[0] && tail[0] in tail;
        assert all[j - 1] == head[0] && head[0] in head;
      }
    }
  }

  /** Pairs under `key`, then pairs whose keys are at least `next >= key`: all keys are at least `key`. */
  lemma KeysBoundedBelow(key: string, head: seq<Pair>, next: string, tail: seq<Pair>)
    requires forall p | p in head :: p.0 == key
    requires LexLeq(key, next) && forall p | p in tail :: LexLeq(next, p.0)
    ensures forall p | p in tail :: LexLeq(key, p.0)
    ensures forall p | p in head + tail :: LexLeq(key, p.0)
  {
    LexLeqReflexive(key);
    forall p | p in tail ensures LexLeq(key, p.0) {
      LexLeqTransitive(key, next, p.0);
    }
  }

  /** Over sorted primitive items, the pairs come out with ascending keys. */
  lemma {:induction false} EntriesQueryAscending(o: Value, items: seq<Entry>, i: nat)
    requires o.Obj? && i <= |items|
    requires forall e | e in items :: e in o.attrs
    requires SortedByKey(items)
    requires forall j :: i <= j < |items| ==> Primitive(items[j].val)
    ensures EntriesQuery(o, items, i).Ok?
    ensures Ascending(PairKeys(EntriesQuery(o, items, i).value))
    ensures forall p | p in EntriesQuery(o, items, i).value :: i < |items| && LexLeq(items[i].key, p.0)
    decreases |items| - i
  {
    if i < |items| {
      EntriesQueryAscending(o, items, i + 1);
      EntriesQueryAscendingStep(o, items, i);
    } else {
      assert EntriesQuery(o, items, i) == Ok([]);
      assert PairKeys([]) == [];
    }
  }

  /** One item in front of an ascending run whose keys are at least the next item's key. */
  lemma EntriesQueryAscendingStep(o: Value, items: seq<Entry>, i: nat)
    requires o.Obj? && i < |items|
    requires forall e | e in items :: e in o.attrs
    requires SortedByKey(items) && Primitive(items[i].val)
    requires EntriesQuery(o, items, i + 1).Ok?
    requires Ascending(PairKeys(EntriesQuery(o, items, i + 1).value))
    requires forall p | p in EntriesQuery(o, items, i + 1).value :: i + 1 < |items| && LexLeq(items[i + 1].key, p.0)
    ensures EntriesQuery(o, items, i).Ok?
    ensures Ascending(PairKeys(EntriesQuery(o, items, i).value))
    ensures forall p | p in EntriesQuery(o, items, i).value :: LexLeq(items[i].key, p.0)
  {
    assert items[i] in o.attrs;
    var key := items[i].key;
    PrimitiveQuery(key, items[i].val);
    var head := ToQueryString(key, items[i].val).value;
    var tail := EntriesQuery(o, items, i + 1).value;
    assert EntriesQuery(o, items, i).value == head + tail;
    if i + 1 < |items| {
      assert LexLeq(items[i].key, items[i + 1].key);
      KeysBoundedBelow(key, head, items[i + 1].key, tail);
    } else {
      assert tail == [];
      LexLeqReflexive(key);
      KeysBoundedBelow(key, head, key, tail);
    }
    AscendingPrepend(head, tail, key);
  }

  /** "Top-level fields come out in ascending name order": a message of primitive fields encodes with ascending keys. */
  lemma MessageQueryAscending(o: Value)
    requires o.Obj?
    requires forall e | e in o.attrs :: Primitive(e.val)
    ensures MessageQuery(o).Ok?
    ensures Ascending(PairKeys(MessageQuery(o).value))
  {
    var sorted := SortByKey(o.attrs);
    assert forall e | e in sorted :: e in o.attrs by {
      assert forall e | e in sorted :: e in multiset(sorted);
    }
    forall j | 0 <= j < |sorted| ensures Primitive(sorted[j].val) {
      assert sorted[j] in sorted;
    }
    EntriesQueryAscending(o, sorted, 0);
  }

  /** The example of the test suite: a `Foo` with `x = 3` encodes as `[('x', '3')]`. */
  lemma FooExample()
    ensures MessageQuery(Obj("Foo", [Entry("x", Int(3))])) == Ok([("x", "3")])
  {
    var o := Obj("Foo", [Entry("x", Int(3))]);
    assert SortByKey(o.attrs) == InsertByKey(o.attrs[0], SortByKey([]));
    assert SortByKey(o.attrs) == o.attrs;
    assert IntToString(3) == "3";
    assert ToQueryString("x", Int(3)) == Ok([("x", "3")]);
    assert EntriesQuery(o, o.attrs, 1) == Ok([]);
    assert EntriesQuery(o, o.attrs, 0) == Ok([("x", "3")] + []);
    assert MessageQuery(o) == EntriesQuery(o, o.attrs, 0);
    assert [("x", "3")] + [] == [("x", "3")];
  }
}
