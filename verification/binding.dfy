/** `register_template`: the binding tables a template class gets from its
    parsed template (`bind_menu`, `bind_child`, `bind_callback`), as
    functions of the tables so far. */
module Binding {
  import opened Values
  import opened Dict
  import opened Elements

  /** One `bind_template_child_full(id, internal, 0)` call. */
  datatype ChildBinding = ChildBinding(id: Value, internal: Value)

  /** The warnings the binder and `init_template` log. */
  datatype Warning =
    | AlreadyBound(key: Value)
    | MethodNotFound(name: Value)
    | MissingHandler(name: Value)

  /** `bound_widgets`, `bound_methods`, the child-binding calls issued so far
      and the warnings logged so far. */
  datatype Bindings = Bindings(
    widgets: ODict<Value, Element>,
    methods: ODict<Value, Element>,
    calls: seq<ChildBinding>,
    warnings: seq<Warning>)

  /** The state before the first binding, or the error that stopped it. */
  datatype Outcome = Outcome(state: Bindings, error: Option<Error>)

  function NoBindings(): Bindings {
    Bindings(Empty(), Empty(), [], [])
  }

  ghost predicate ValidBindings(b: Bindings) {
    Valid(b.widgets) && Valid(b.methods)
  }

  // ---------------------------------------------------------------------
  // bind_menu

  /** `bind_menu(element)`: a menu without an id is skipped; a menu whose
      name is already bound is skipped with a warning; otherwise it is bound
      under its name, not internal. */
  function BindMenu(b: Bindings, e: Element): Bindings {
    if KeyOf(e, "id_") == NoneValue then b
    else if Name(e) in b.widgets.items then b.(warnings := b.warnings + [AlreadyBound(Name(e))])
    else b.(widgets := Put(b.widgets, Name(e), e),
            calls := b.calls + [ChildBinding(KeyOf(e, "id_"), BoolValue(false))])
  }

  function BindMenus(b: Bindings, es: seq<Element>): Bindings
    decreases |es|
  {
    if es == [] then b else BindMenu(BindMenus(b, es[..|es| - 1]), es[|es| - 1])
  }

  /** Menu `i` is bound: it has an id and no earlier menu (nor the starting
      table) holds its name. */
  ghost predicate FirstMenu(b: Bindings, es: seq<Element>, i: int) {
    && 0 <= i < |es|
    && KeyOf(es[i], "id_") != NoneValue
    && Name(es[i]) !in b.widgets.items
    && forall j :: 0 <= j < i && KeyOf(es[j], "id_") != NoneValue ==> Name(es[j]) != Name(es[i])
  }

  /** Binding menus leaves the methods alone, keeps every earlier widget
      and adds exactly the names of the menus with an id. */
  lemma {:induction false} BindMenusKeys(b: Bindings, es: seq<Element>)
    ensures BindMenus(b, es).methods == b.methods
    ensures forall v :: v in BindMenus(b, es).widgets.items <==>
              (|| v in b.widgets.items
               || exists i :: 0 <= i < |es| && KeyOf(es[i], "id_") != NoneValue && Name(es[i]) == v)
    ensures forall v :: v in b.widgets.items ==> BindMenus(b, es).widgets.items[v] == b.widgets.items[v]
    decreases |es|
  {
    if es != [] {
      var m := |es| - 1;
      assert forall i :: 0 <= i < m ==> es[..m][i] == es[i];
      BindMenusKeys(b, es[..m]);
    }
  }

  /** The first menu of a name wins: a later menu of the same name is
      skipped. */
  lemma {:induction false} BindMenusFirstWins(b: Bindings, es: seq<Element>, i: nat)
    requires FirstMenu(b, es, i)
    ensures Name(es[i]) in BindMenus(b, es).widgets.items
    ensures BindMenus(b, es).widgets.items[Name(es[i])] == es[i]
    decreases |es|
  {
    var m := |es| - 1;
    var init := es[..m];
    if i < m {
      assert forall j :: 0 <= j < m ==> init[j] == es[j];
      assert FirstMenu(b, init, i);
      BindMenusFirstWins(b, init, i);
    } else {
      BindMenusKeys(b, init);
      assert Name(es[m]) !in BindMenus(b, init).widgets.items;
    }
  }

  /** Binding menus only appends calls, each for a non-internal child. */
  lemma {:induction false} BindMenusCalls(b: Bindings, es: seq<Element>)
    ensures |BindMenus(b, es).calls| >= |b.calls| && BindMenus(b, es).calls[..|b.calls|] == b.calls
    ensures forall c :: c in BindMenus(b, es).calls[|b.calls|..] ==> c.internal == BoolValue(false)
    decreases |es|
  {
    if es != [] {
      var m := |es| - 1;
      BindMenusCalls(b, es[..m]);
      var r := BindMenus(b, es[..m]);
      if KeyOf(es[m], "id_") != NoneValue && Name(es[m]) !in r.widgets.items {
        assert BindMenus(b, es).calls[|b.calls|..] == r.calls[|b.calls|..] + [ChildBinding(KeyOf(es[m], "id_"), BoolValue(false))];
      }
    }
  }

  /** Binding menus only appends warnings: one `AlreadyBound` for every menu
      with an id that is not bound because its name was taken, and no
      other. */
  lemma {:induction false} BindMenusWarnings(b: Bindings, es: seq<Element>)
    ensures |BindMenus(b, es).warnings| >= |b.warnings| && BindMenus(b, es).warnings[..|b.warnings|] == b.warnings
    ensures forall i :: 0 <= i < |es| && KeyOf(es[i], "id_") != NoneValue && !FirstMenu(b, es, i) ==>
              AlreadyBound(Name(es[i])) in BindMenus(b, es).warnings[|b.warnings|..]
    ensures forall w :: w in BindMenus(b, es).warnings[|b.warnings|..] ==>
              w.AlreadyBound? && exists i :: 0 <= i < |es| && KeyOf(es[i], "id_") != NoneValue && Name(es[i]) == w.key
    decreases |es|
  {
    if es != [] {
      var m := |es| - 1;
      var init := es[..m];
      var r := BindMenus(b, init);
      BindMenusWarnings(b, init);
      BindMenusKeys(b, init);
      assert forall i :: 0 <= i < m ==> init[i] == es[i];
      assert forall i :: 0 <= i < m ==> (FirstMenu(b, es, i) <==> FirstMenu(b, init, i));
      var w := BindMenus(b, es).warnings[|b.warnings|..];
      var wi := r.warnings[|b.warnings|..];
      if KeyOf(es[m], "id_") != NoneValue && Name(es[m]) in r.widgets.items {
        assert w == wi + [AlreadyBound(Name(es[m]))];
      } else {
        assert w == wi;
        if KeyOf(es[m], "id_") != NoneValue {
          assert FirstMenu(b, es, m);
        }
      }
    }
  }

  // ---------------------------------------------------------------------
  // bind_child

  /** The key `bind_child` binds a child under: its `name` if truthy, else
      its `id_`. */
  function ChildKey(e: Element): Value {
    Or(Name(e), KeyOf(e, "id_"))
  }

  /** The child as `bind_child` leaves it: its `name` set to its key. */
  function Renamed(e: Element): Element {
    e.(fields := e.fields["name" := ChildKey(e)])
  }

  /** `bind_child(element)`: a key already bound raises KeyError; otherwise
      the renamed child is bound under its key with one child-binding call
      for `(id_, internal)`. */
  function BindChild(b: Bindings, e: Element): Result<Bindings> {
    var key := ChildKey(e);
    if key in b.widgets.items then Err(KeyError(key))
    else Ok(b.(widgets := Put(b.widgets, key, Renamed(e)),
               calls := b.calls + [ChildBinding(KeyOf(e, "id_"), KeyOf(e, "internal"))]))
  }

  /** The calls of `bind_child` for `es`, in order. */
  function ChildCalls(es: seq<Element>): seq<ChildBinding> {
    seq(|es|, i requires 0 <= i < |es| => ChildBinding(KeyOf(es[i], "id_"), KeyOf(es[i], "internal")))
  }

  function BindChildren(b: Bindings, es: seq<Element>): Outcome
    decreases |es|
  {
    if es == [] then Outcome(b, None)
    else
      var o := BindChildren(b, es[..|es| - 1]);
      if o.error.Some? then o
      else
        match BindChild(o.state, es[|es| - 1])
        case Err(err) => Outcome(o.state, Some(err))
        case Ok(s) => Outcome(s, None)
  }

  /** The keys of `es`, in order. */
  function ChildKeys(es: seq<Element>): seq<Value> {
    seq(|es|, i requires 0 <= i < |es| => ChildKey(es[i]))
  }

  /** The children's keys are fresh: none is bound already and no two are
      equal. */
  ghost predicate FreshKeys(b: Bindings, es: seq<Element>) {
    && (forall i :: 0 <= i < |es| ==> ChildKey(es[i]) !in b.widgets.items)
    && (forall i, j :: 0 <= i < j < |es| ==> ChildKey(es[i]) != ChildKey(es[j]))
  }

  /** With fresh keys, binding children succeeds and binds nothing but the
      children's keys. */
  lemma {:induction false} BindChildrenOnly(b: Bindings, es: seq<Element>)
    requires FreshKeys(b, es)
    ensures BindChildren(b, es).error.None?
    ensures forall v :: v in BindChildren(b, es).state.widgets.items ==> v in b.widgets.items || v in ChildKeys(es)
    decreases |es|
  {
    if es != [] {
      var m := |es| - 1;
      var init := es[..m];
      assert forall i :: 0 <= i < m ==> init[i] == es[i];
      BindChildrenOnly(b, init);
      assert ChildKeys(es) == ChildKeys(init) + [ChildKey(es[m])];
    }
  }

  /** With fresh keys, binding children binds each renamed child under its
      key. */
  lemma {:induction false} BindChildrenWidgets(b: Bindings, es: seq<Element>)
    requires FreshKeys(b, es)
    ensures BindChildren(b, es).error.None?
    ensures forall i :: 0 <= i < |es| ==>
              && ChildKey(es[i]) in BindChildren(b, es).state.widgets.items
              && BindChildren(b, es).state.widgets.items[ChildKey(es[i])] == Renamed(es[i])
    decreases |es|
  {
    BindChildrenOnly(b, es);
    if es != [] {
      var m := |es| - 1;
      var init := es[..m];
      assert forall i :: 0 <= i < m ==> init[i] == es[i];
      BindChildrenWidgets(b, init);
    }
  }

  /** With fresh keys, binding children keeps every earlier widget and the
      methods, and issues one call per child in order. */
  lemma {:induction false} BindChildrenState(b: Bindings, es: seq<Element>)
    requires FreshKeys(b, es)
    ensures BindChildren(b, es).error.None?
    ensures var r := BindChildren(b, es).state;
            && r.methods == b.methods
            && r.calls == b.calls + ChildCalls(es)
            && (forall v :: v in b.widgets.items ==> v in r.widgets.items && r.widgets.items[v] == b.widgets.items[v])
    decreases |es|
  {
    BindChildrenOnly(b, es);
    if es != [] {
      var m := |es| - 1;
      var init := es[..m];
      assert forall i :: 0 <= i < m ==> init[i] == es[i];
      BindChildrenState(b, init);
      assert ChildCalls(init) + [ChildBinding(KeyOf(es[m], "id_"), KeyOf(es[m], "internal"))] == ChildCalls(es);
    }
  }

  /** Binding children succeeds exactly when their keys are fresh. */
  lemma {:induction false} BindChildrenOk(b: Bindings, es: seq<Element>)
    ensures BindChildren(b, es).error.None? <==> FreshKeys(b, es)
    decreases |es|
  {
    if es != [] && !FreshKeys(b, es) {
      var m := |es| - 1;
      var init := es[..m];
      assert forall i :: 0 <= i < m ==> init[i] == es[i];
      if FreshKeys(b, init) {
        if ChildKey(es[m]) !in b.widgets.items {
          assert exists i, j :: 0 <= i < j < |es| && ChildKey(es[i]) == ChildKey(es[j]);
          var i, j :| 0 <= i < j < |es| && ChildKey(es[i]) == ChildKey(es[j]);
          assert j == m;
        }
        BindChildrenErr(b, es, m);
      } else {
        BindChildrenOk(b, init);
      }
    } else if FreshKeys(b, es) {
      BindChildrenOnly(b, es);
    }
  }

  /** Binding children fails with the KeyError of the first child whose key
      is already bound, by the starting table or an earlier child. */
  lemma {:induction false} BindChildrenErr(b: Bindings, es: seq<Element>, i: nat)
    requires i < |es| && FreshKeys(b, es[..i])
    requires ChildKey(es[i]) in b.widgets.items || exists j :: 0 <= j < i && ChildKey(es[j]) == ChildKey(es[i])
    ensures BindChildren(b, es).error == Some(KeyError(ChildKey(es[i])))
    decreases |es|
  {
    var m := |es| - 1;
    if i == m {
      assert es[..m] == es[..i];
      BindChildrenWidgets(b, es[..m]);
      BindChildrenState(b, es[..m]);
      if ChildKey(es[i]) !in b.widgets.items {
        var j :| 0 <= j < i && ChildKey(es[j]) == ChildKey(es[i]);
        assert es[..m][j] == es[j];
      }
    } else {
      assert es[..m][..i] == es[..i];
      assert es[..m][i] == es[i];
      forall j | 0 <= j < i ensures es[..m][j] == es[j] { }
      BindChildrenErr(b, es[..m], i);
    }
  }

  /** Once a child's key is already bound, binding stops there: the later
      children change nothing. */
  lemma {:induction false} BindChildrenStops(b: Bindings, es: seq<Element>, j: nat)
    requires j < |es| && BindChildren(b, es[..j]).error.None?
    requires ChildKey(es[j]) in BindChildren(b, es[..j]).state.widgets.items
    ensures BindChildren(b, es) == Outcome(BindChildren(b, es[..j]).state, Some(KeyError(ChildKey(es[j]))))
    decreases |es|
  {
    var m := |es| - 1;
    if j == m {
      assert es[..m] == es[..j];
    } else {
      assert es[..m][..j] == es[..j];
      assert es[..m][j] == es[j];
      BindChildrenStops(b, es[..m], j);
    }
  }

  /** Binding menus and children keeps the tables well-formed. */
  lemma {:induction false} BindMenusValid(b: Bindings, es: seq<Element>)
    requires ValidBindings(b)
    ensures ValidBindings(BindMenus(b, es))
    decreases |es|
  {
    if es != [] {
      var r := BindMenus(b, es[..|es| - 1]);
      BindMenusValid(b, es[..|es| - 1]);
      PutValid(r.widgets, Name(es[|es| - 1]), es[|es| - 1]);
    }
  }

  lemma {:induction false} BindChildrenValid(b: Bindings, es: seq<Element>)
    requires ValidBindings(b)
    ensures ValidBindings(BindChildren(b, es).state)
    decreases |es|
  {
    if es != [] {
      var o := BindChildren(b, es[..|es| - 1]);
      BindChildrenValid(b, es[..|es| - 1]);
      PutValid(o.state.widgets, ChildKey(es[|es| - 1]), Renamed(es[|es| - 1]));
    }
  }

  // ---------------------------------------------------------------------
  // bind_callback

  /** The method a callback element names: a signal's `handler`, a
      closure's `function`. */
  function CallbackName(e: Element): Value {
    if e.kind == Signal then KeyOf(e, "handler") else KeyOf(e, "function")
  }

  /** `hasattr(cls, method)` for a class whose attributes are `attributes`. */
  predicate Defined(m: Value, attributes: set<string>) {
    m.StrValue? && m.s in attributes
  }

  /** `bind_callback(element)`: a method already bound, or one the class
      does not define, is skipped with a warning; otherwise the element is
      bound under the method's name. */
  function BindCallback(b: Bindings, e: Element, attributes: set<string>): Bindings {
    var m := CallbackName(e);
    if m in b.methods.items then b.(warnings := b.warnings + [AlreadyBound(m)])
    else if !Defined(m, attributes) then b.(warnings := b.warnings + [MethodNotFound(m)])
    else b.(methods := Put(b.methods, m, e))
  }

  function BindCallbacks(b: Bindings, es: seq<Element>, attributes: set<string>): Bindings
    decreases |es|
  {
    if es == [] then b else BindCallback(BindCallbacks(b, es[..|es| - 1], attributes), es[|es| - 1], attributes)
  }

  lemma {:induction false} BindCallbacksValid(b: Bindings, es: seq<Element>, attributes: set<string>)
    requires ValidBindings(b)
    ensures ValidBindings(BindCallbacks(b, es, attributes))
    decreases |es|
  {
    if es != [] {
      var r := BindCallbacks(b, es[..|es| - 1], attributes);
      BindCallbacksValid(b, es[..|es| - 1], attributes);
      PutValid(r.methods, CallbackName(es[|es| - 1]), es[|es| - 1]);
    }
  }

  /** The method names of `es`, in order. */
  function CallbackNames(es: seq<Element>): seq<Value> {
    seq(|es|, i requires 0 <= i < |es| => CallbackName(es[i]))
  }

  /** Binding callbacks changes neither the widgets nor the calls, keeps every
      earlier method, and adds exactly the names of the callbacks the class
      defines. */
  lemma {:induction false} BindCallbacksKeys(b: Bindings, es: seq<Element>, attributes: set<string>)
    ensures BindCallbacks(b, es, attributes).widgets == b.widgets
    ensures BindCallbacks(b, es, attributes).calls == b.calls
    ensures forall v :: v in BindCallbacks(b, es, attributes).methods.items <==>
              (v in b.methods.items || (Defined(v, attributes) && v in CallbackNames(es)))
    ensures forall v :: v in b.methods.items ==> BindCallbacks(b, es, attributes).methods.items[v] == b.methods.items[v]
    decreases |es|
  {
    if es != [] {
      var m := |es| - 1;
      assert forall i :: 0 <= i < m ==> es[..m][i] == es[i];
      BindCallbacksKeys(b, es[..m], attributes);
      assert CallbackNames(es) == CallbackNames(es[..m]) + [CallbackName(es[m])];
    }
  }

  /** Binding callbacks only appends warnings: every callback that is not
      bound gets one (`AlreadyBound` when its name is taken, `MethodNotFound`
      when the class lacks the method), and every warning is of one of these
      two kinds for a name in `es`. */
  lemma {:induction false} BindCallbacksWarnings(b: Bindings, es: seq<Element>, attributes: set<string>)
    ensures var r := BindCallbacks(b, es, attributes);
            |r.warnings| >= |b.warnings| && r.warnings[..|b.warnings|] == b.warnings
    ensures forall i :: 0 <= i < |es| && !FirstCallback(b, es, attributes, i) ==>
              || AlreadyBound(CallbackName(es[i])) in BindCallbacks(b, es, attributes).warnings[|b.warnings|..]
              || MethodNotFound(CallbackName(es[i])) in BindCallbacks(b, es, attributes).warnings[|b.warnings|..]
    ensures forall w :: w in BindCallbacks(b, es, attributes).warnings[|b.warnings|..] ==>
              || (w.AlreadyBound? && w.key in CallbackNames(es))
              || (w.MethodNotFound? && w.name in CallbackNames(es) && !Defined(w.name, attributes))
    decreases |es|
  {
    if es != [] {
      var m := |es| - 1;
      var init := es[..m];
      var r := BindCallbacks(b, init, attributes);
      BindCallbacksWarnings(b, init, attributes);
      BindCallbacksKeys(b, init, attributes);
      assert forall i :: 0 <= i < m ==> init[i] == es[i];
      assert forall i :: 0 <= i < m ==> (FirstCallback(b, es, attributes, i) <==> FirstCallback(b, init, attributes, i));
      assert CallbackNames(es) == CallbackNames(init) + [CallbackName(es[m])];
      var n := CallbackName(es[m]);
      var w := BindCallbacks(b, es, attributes).warnings[|b.warnings|..];
      var wi := r.warnings[|b.warnings|..];
      if n in r.methods.items {
        assert w == wi + [AlreadyBound(n)];
      } else if !Defined(n, attributes) {
        assert w == wi + [MethodNotFound(n)];
      } else {
        assert w == wi;
        forall j | 0 <= j < m
          ensures CallbackName(es[j]) != n
        {
          assert CallbackName(init[j]) == CallbackNames(init)[j];
        }
        assert FirstCallback(b, es, attributes, m);
      }
    }
  }

  /** Callback `i` is the first of its name, the name is defined and not
      bound yet. */
  ghost predicate FirstCallback(b: Bindings, es: seq<Element>, attributes: set<string>, i: int) {
    && 0 <= i < |es|
    && CallbackName(es[i]) !in b.methods.items
    && Defined(CallbackName(es[i]), attributes)
    && forall j :: 0 <= j < i ==> CallbackName(es[j]) != CallbackName(es[i])
  }

  /** The first callback of a defined name wins; later ones are skipped. */
  lemma {:induction false} BindCallbacksFirstWins(b: Bindings, es: seq<Element>, attributes: set<string>, i: nat)
    requires FirstCallback(b, es, attributes, i)
    ensures CallbackName(es[i]) in BindCallbacks(b, es, attributes).methods.items
    ensures BindCallbacks(b, es, attributes).methods.items[CallbackName(es[i])] == es[i]
    decreases |es|
  {
    var m := |es| - 1;
    var init := es[..m];
    BindCallbacksKeys(b, init, attributes);
    if i < m {
      assert forall j :: 0 <= j < m ==> init[j] == es[j];
      assert FirstCallback(b, init, attributes, i);
      BindCallbacksFirstWins(b, init, attributes, i);
    } else {
      assert CallbackName(es[m]) !in CallbackNames(init);
    }
  }

  /** A name that occurs in a sequence has a first occurrence. */
  lemma {:induction false} FirstOccurrence(vs: seq<Value>, i: nat)
    requires i < |vs|
    ensures exists j :: 0 <= j <= i && vs[j] == vs[i] && forall k :: 0 <= k < j ==> vs[k] != vs[i]
    decreases i
  {
    if k :| 0 <= k < i && vs[k] == vs[i] {
      FirstOccurrence(vs, k);
    } else {
      assert 0 <= i <= i && vs[i] == vs[i] && forall k :: 0 <= k < i ==> vs[k] != vs[i];
    }
  }

  /** With signals bound before closures, a defined name some signal carries
      is bound to a signal (the first carrying it), never to a closure. */
  lemma SignalsBeforeClosures(b: Bindings, signals: seq<Element>, closures: seq<Element>, attributes: set<string>, i: nat)
    requires i < |signals| && Defined(CallbackName(signals[i]), attributes)
    requires CallbackName(signals[i]) !in b.methods.items
    ensures CallbackName(signals[i]) in BindCallbacks(b, signals + closures, attributes).methods.items
    ensures BindCallbacks(b, signals + closures, attributes).methods.items[CallbackName(signals[i])] in signals
  {
    var es := signals + closures;
    assert CallbackNames(es)[i] == CallbackName(signals[i]);
    FirstOccurrence(CallbackNames(es), i);
    var j :| 0 <= j <= i && CallbackNames(es)[j] == CallbackName(signals[i])
             && forall k :: 0 <= k < j ==> CallbackNames(es)[k] != CallbackName(signals[i]);
    forall k | 0 <= k < j ensures CallbackName(es[k]) != CallbackName(es[j]) {
      assert CallbackNames(es)[k] == CallbackName(es[k]);
    }
    assert CallbackNames(es)[j] == CallbackName(es[j]);
    assert FirstCallback(b, es, attributes, j);
    BindCallbacksFirstWins(b, es, attributes, j);
  }
}

/** `register_template` as a whole: menus, then children, then signals and
    closures. */
module Registration {
  import opened Values
  import opened Dict
  import opened Elements
  import opened Templates
  import opened Binding

  /** The bindings `register_template` computes for template `t` on a class
      whose attributes are `attributes`, or the KeyError of a duplicate
      child (the tables are then not stored). */
  function Register(t: Template, attributes: set<string>): Outcome
    requires WellFormed(t)
  {
    var menus := BindMenus(NoBindings(), ValueList(t.menus));
    var o := BindChildren(menus, ValueList(t.children));
    if o.error.Some? then o
    else Outcome(BindCallbacks(o.state, ValueList(t.signals) + ValueList(t.closures), attributes), None)
  }

  /** Registration succeeds exactly when every child's key is distinct from
      the other children's keys and from every menu name: menus are bound
      first, so a child keyed like a menu raises KeyError. */
  lemma RegisterOk(t: Template, attributes: set<string>)
    requires WellFormed(t)
    ensures Register(t, attributes).error.None? <==>
              && (forall i, j :: 0 <= i < j < |ValueList(t.children)| ==>
                    ChildKey(ValueList(t.children)[i]) != ChildKey(ValueList(t.children)[j]))
              && forall i, j ::
                   (0 <= i < |ValueList(t.children)| && 0 <= j < |ValueList(t.menus)|
                    && KeyOf(ValueList(t.menus)[j], "id_") != NoneValue) ==>
                   ChildKey(ValueList(t.children)[i]) != Name(ValueList(t.menus)[j])
  {
    var menus := BindMenus(NoBindings(), ValueList(t.menus));
    BindMenusKeys(NoBindings(), ValueList(t.menus));
    BindChildrenOk(menus, ValueList(t.children));
  }

  /** On success the widgets are the named menus and the renamed children,
      each child under its key; the calls are one per bound menu (not
      internal) followed by one per child, in order. */
  lemma RegisterWidgets(t: Template, attributes: set<string>)
    requires WellFormed(t) && Register(t, attributes).error.None?
    ensures var r := Register(t, attributes).state;
            && (forall i :: 0 <= i < |ValueList(t.children)| ==>
                  && ChildKey(ValueList(t.children)[i]) in r.widgets.items
                  && r.widgets.items[ChildKey(ValueList(t.children)[i])] == Renamed(ValueList(t.children)[i]))
            && (forall v :: v in r.widgets.items ==>
                  || v in ChildKeys(ValueList(t.children))
                  || exists j :: 0 <= j < |ValueList(t.menus)| && KeyOf(ValueList(t.menus)[j], "id_") != NoneValue
                                 && Name(ValueList(t.menus)[j]) == v)
            && r.calls == BindMenus(NoBindings(), ValueList(t.menus)).calls + ChildCalls(ValueList(t.children))
  {
    var menus := BindMenus(NoBindings(), ValueList(t.menus));
    BindMenusKeys(NoBindings(), ValueList(t.menus));
    BindChildrenOk(menus, ValueList(t.children));
    BindChildrenOnly(menus, ValueList(t.children));
    BindChildrenWidgets(menus, ValueList(t.children));
    BindChildrenState(menus, ValueList(t.children));
    BindCallbacksKeys(BindChildren(menus, ValueList(t.children)).state, ValueList(t.signals) + ValueList(t.closures), attributes);
  }

  /** On success the methods are exactly the defined handler and function
      names. */
  lemma RegisterMethods(t: Template, attributes: set<string>)
    requires WellFormed(t) && Register(t, attributes).error.None?
    ensures forall v :: v in Register(t, attributes).state.methods.items <==>
              Defined(v, attributes) && v in CallbackNames(ValueList(t.signals) + ValueList(t.closures))
  {
    var menus := BindMenus(NoBindings(), ValueList(t.menus));
    BindMenusKeys(NoBindings(), ValueList(t.menus));
    BindChildrenOk(menus, ValueList(t.children));
    BindChildrenState(menus, ValueList(t.children));
    BindCallbacksKeys(BindChildren(menus, ValueList(t.children)).state, ValueList(t.signals) + ValueList(t.closures), attributes);
  }

  /** Signals are bound before closures: on success a defined name that a
      signal carries is bound to a signal, never to a closure. */
  lemma RegisterSignalsWin(t: Template, attributes: set<string>, i: nat)
    requires WellFormed(t) && Register(t, attributes).error.None?
    requires i < |ValueList(t.signals)| && Defined(CallbackName(ValueList(t.signals)[i]), attributes)
    ensures CallbackName(ValueList(t.signals)[i]) in Register(t, attributes).state.methods.items
    ensures Register(t, attributes).state.methods.items[CallbackName(ValueList(t.signals)[i])] in ValueList(t.signals)
  {
    var menus := BindMenus(NoBindings(), ValueList(t.menus));
    BindMenusKeys(NoBindings(), ValueList(t.menus));
    BindChildrenOk(menus, ValueList(t.children));
    BindChildrenState(menus, ValueList(t.children));
    var o := BindChildren(menus, ValueList(t.children));
    SignalsBeforeClosures(o.state, ValueList(t.signals), ValueList(t.closures), attributes, i);
  }

  /** The tables `register_template` stores are well-formed dictionaries. */
  lemma RegisterValid(t: Template, attributes: set<string>)
    requires WellFormed(t)
    ensures ValidBindings(Register(t, attributes).state)
  {
    EmptyValid<Value, Element>();
    var menus := BindMenus(NoBindings(), ValueList(t.menus));
    BindMenusValid(NoBindings(), ValueList(t.menus));
    BindChildrenValid(menus, ValueList(t.children));
    BindCallbacksValid(BindChildren(menus, ValueList(t.children)).state, ValueList(t.signals) + ValueList(t.closures), attributes);
  }
}
