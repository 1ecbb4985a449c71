/** `TemplateMeta`: a template class loads its template once, binds its
    widgets and methods, and every instance records which bound methods the
    builder asked for. */
module Meta {
  import opened Values
  import opened Dict
  import opened Xml
  import opened Elements
  import opened Templates
  import opened Binding
  import opened Registration
  import opened Loading
  import opened Handlers

  // ---------------------------------------------------------------------
  // load_template

  /** The template `load_template` sets: the selected source, read as an
      XML document by `document`, then parsed against the type registry. */
  function Load(kwargs: map<string, Value>, d: Declared, className: string, dir: string,
                names: seq<string>, files: set<string>, document: Source -> Node,
                registry: Registry): Result<Template> {
    match TemplateSource(kwargs, d, className, dir, names, files)
    case Err(e) => Err(e)
    case Ok(src) => FromElementTree(document(src), registry)
  }

  /** The loop over the candidate files that stops at the first one that
      exists. */
  method FindTemplateFile(candidates: seq<string>, files: set<string>) returns (r: Option<string>)
    ensures r == FirstExisting(candidates, files)
  {
    var i := 0;
    while i < |candidates|
      invariant 0 <= i <= |candidates|
      invariant FirstExisting(candidates[i..], files) == FirstExisting(candidates, files)
    {
      assert candidates[i..][1..] == candidates[i + 1..];
      if candidates[i] in files {
        return Some(candidates[i]);
      }
      i := i + 1;
    }
    return None;
  }

  /** The source selection of `load_template`: the explicit sources by
      priority, then the candidate files. */
  method SelectSource(kwargs: map<string, Value>, declared: Declared, className: string,
                      dir: string, names: seq<string>, files: set<string>) returns (r: Result<Source>)
    ensures r == TemplateSource(kwargs, declared, className, dir, names, files)
  {
    var s := Pop(kwargs, "template_string", declared.templateString);
    if s.Truthy() {
      return Ok(StringSource(s));
    }
    var res := Pop(kwargs, "template_resource", declared.templateResource);
    if res.Truthy() {
      return Ok(ResourceSource(res));
    }
    var p := Pop(kwargs, "template_path", declared.templatePath);
    if p.Truthy() {
      return Ok(FileSource(p));
    }
    var found := FindTemplateFile(Candidates(dir, names), files);
    if found.None? {
      return Err(ValueError(className));
    }
    return Ok(FileSource(StrValue(found.value)));
  }

  // ---------------------------------------------------------------------
  // register_template

  /** The `bind_menu` loop, filling `bound_widgets` from empty tables. */
  method BindMenuLoop(menus: seq<Element>) returns (b: Bindings)
    ensures b == BindMenus(NoBindings(), menus)
  {
    var widgets: ODict<Value, Element> := Empty();
    var calls: seq<ChildBinding> := [];
    var warns: seq<Warning> := [];
    var i := 0;
    while i < |menus|
      invariant 0 <= i <= |menus|
      invariant Bindings(widgets, Empty(), calls, warns) == BindMenus(NoBindings(), menus[..i])
    {
      var e := menus[i];
      assert menus[..i + 1][..i] == menus[..i];
      if KeyOf(e, "id_") == NoneValue {
      } else if Name(e) in widgets.items {
        warns := warns + [AlreadyBound(Name(e))];
      } else {
        widgets := Put(widgets, Name(e), e);
        calls := calls + [ChildBinding(KeyOf(e, "id_"), BoolValue(false))];
      }
      i := i + 1;
    }
    assert menus[..i] == menus;
    return Bindings(widgets, Empty(), calls, warns);
  }

  /** The `bind_child` loop; the first duplicate key raises KeyError. */
  method BindChildLoop(start: Bindings, children: seq<Element>) returns (o: Outcome)
    ensures o == BindChildren(start, children)
  {
    var widgets := start.widgets;
    var calls := start.calls;
    var j := 0;
    while j < |children|
      invariant 0 <= j <= |children|
      invariant BindChildren(start, children[..j]) == Outcome(start.(widgets := widgets, calls := calls), None)
    {
      var e := children[j];
      assert children[..j + 1][..j] == children[..j];
      var key := ChildKey(e);
      if key in widgets.items {
        BindChildrenStops(start, children, j);
        return Outcome(start.(widgets := widgets, calls := calls), Some(KeyError(key)));
      }
      widgets := Put(widgets, key, Renamed(e));
      calls := calls + [ChildBinding(KeyOf(e, "id_"), KeyOf(e, "internal"))];
      j := j + 1;
    }
    assert children[..j] == children;
    return Outcome(start.(widgets := widgets, calls := calls), None);
  }

  /** The `bind_callback` loop over the signals, then the closures. */
  method BindCallbackLoop(start: Bindings, callbacks: seq<Element>, attributes: set<string>) returns (b: Bindings)
    ensures b == BindCallbacks(start, callbacks, attributes)
  {
    var methods := start.methods;
    var warns := start.warnings;
    var k := 0;
    while k < |callbacks|
      invariant 0 <= k <= |callbacks|
      invariant start.(methods := methods, warnings := warns) == BindCallbacks(start, callbacks[..k], attributes)
    {
      var e := callbacks[k];
      assert callbacks[..k + 1][..k] == callbacks[..k];
      var m := CallbackName(e);
      if m in methods.items {
        warns := warns + [AlreadyBound(m)];
      } else if !Defined(m, attributes) {
        warns := warns + [MethodNotFound(m)];
      } else {
        methods := Put(methods, m, e);
      }
      k := k + 1;
    }
    assert callbacks[..k] == callbacks;
    return start.(methods := methods, warnings := warns);
  }

  /** A class whose metaclass is `TemplateMeta`: the class attributes the
      metaclass reads and writes, and the `bind_template_child_full` calls
      and warnings issued for it. */
  class TemplateClass {
    const name: string
    const declared: Declared
    /** The names `hasattr(cls, ...)` finds. */
    const attributes: set<string>
    /** The directory and file name (without extension) of the module that
        defines the class. */
    const moduleDir: string
    const moduleName: string
    /** `__template__`: the one a base class carries or the class body
        sets, else absent until loaded. */
    var template: Option<Template>
    /** `__template_methods__` and `__template_widgets__` (None until
        registered). */
    var templateMethods: Option<ODict<Value, Element>>
    var templateWidgets: Option<ODict<Value, Element>>
    var childCalls: seq<ChildBinding>
    var warnings: seq<Warning>

    ghost predicate Consistent()
      reads this
    {
      && (template.Some? ==> WellFormed(template.value))
      && (templateMethods.Some? ==> Valid(templateMethods.value))
      && (templateWidgets.Some? ==> Valid(templateWidgets.value))
    }

    /** The class object `TemplateMeta.__new__` creates, before
        `load_template`: `inherited` is the `__template__` that attribute
        lookup already finds on it (from a base class or the class body),
        if any. */
    constructor (name: string, declared: Declared, attributes: set<string>, moduleDir: string, moduleName: string,
                 inherited: Option<Template>)
      requires inherited.Some? ==> WellFormed(inherited.value)
      ensures this.name == name && this.declared == declared && this.attributes == attributes
      ensures this.moduleDir == moduleDir && this.moduleName == moduleName
      ensures template == inherited && templateMethods.None? && templateWidgets.None?
      ensures childCalls == [] && warnings == []
      ensures Consistent()
    {
      this.name := name;
      this.declared := declared;
      this.attributes := attributes;
      this.moduleDir := moduleDir;
      this.moduleName := moduleName;
      template := inherited;
      templateMethods := None;
      templateWidgets := None;
      childCalls := [];
      warnings := [];
    }

    /** `load_template(cls, **kwargs)`: a class that already has a template
        keeps it; otherwise the template read from the selected source is
        set, or the error of the selection or of parsing is returned and the
        class is left without a template. `names` lists the candidate base
        names, the three converters applied to the module and class names;
        `files` are the paths that exist. */
    method LoadTemplate(kwargs: map<string, Value>,
                        lower: string -> string, snake: string -> string, pascal: string -> string,
                        names: seq<string>, files: set<string>,
                        document: Source -> Node, registry: Registry) returns (err: Option<Error>)
      requires Consistent()
      requires Enumerates(names, NameSet(moduleName, name, lower, snake, pascal))
      modifies this`template
      ensures Consistent()
      ensures old(template).Some? ==> template == old(template) && err.None?
      ensures old(template).None? ==>
                match Load(kwargs, declared, name, moduleDir, names, files, document, registry)
                case Ok(t) => template == Some(t) && err.None?
                case Err(e) => template.None? && err == Some(e)
    {
      if template.Some? {
        return None;
      }
      var source := SelectSource(kwargs, declared, name, moduleDir, names, files);
      if source.Err? {
        return Some(source.error);
      }
      var parsed := FromElementTree(document(source.value), registry);
      if parsed.Err? {
        return Some(parsed.error);
      }
      TemplateWellFormed(document(source.value), registry);
      template := Some(parsed.value);
      return None;
    }

    /** `register_template(cls)`: menus, then children, then signals and
        closures are bound; the tables are stored on the class unless a
        duplicate child raised KeyError. The calls and warnings issued up to
        that point are recorded either way. */
    method RegisterTemplate() returns (err: Option<Error>)
      requires Consistent() && template.Some?
      modifies this`templateMethods, this`templateWidgets, this`childCalls, this`warnings
      ensures Consistent()
      ensures var o := Register(template.value, attributes);
              && err == o.error
              && childCalls == old(childCalls) + o.state.calls
              && warnings == old(warnings) + o.state.warnings
              && (o.error.None? ==> templateMethods == Some(o.state.methods) && templateWidgets == Some(o.state.widgets))
              && (o.error.Some? ==> templateMethods == old(templateMethods) && templateWidgets == old(templateWidgets))
    {
      var t := template.value;
      var afterMenus := BindMenuLoop(ValueList(t.menus));
      var o := BindChildLoop(afterMenus, ValueList(t.children));
      if o.error.Some? {
        childCalls := childCalls + o.state.calls;
        warnings := warnings + o.state.warnings;
        return o.error;
      }
      var b := BindCallbackLoop(o.state, ValueList(t.signals) + ValueList(t.closures), attributes);
      RegisterValid(t, attributes);
      templateMethods := Some(b.methods);
      templateWidgets := Some(b.widgets);
      childCalls := childCalls + b.calls;
      warnings := warnings + b.warnings;
      return None;
    }
  }

  /** A class statement with metaclass `TemplateMeta`: `__new__` creates
      the class and loads its template, then `__init__` registers it. A
      template the class already finds (`inherited`) is registered again for
      the new class instead of being loaded. */
  method DefineClass(name: string, declared: Declared, attributes: set<string>, moduleDir: string, moduleName: string,
                     inherited: Option<Template>, kwargs: map<string, Value>,
                     lower: string -> string, snake: string -> string, pascal: string -> string,
                     names: seq<string>, files: set<string>,
                     document: Source -> Node, registry: Registry) returns (c: TemplateClass, err: Option<Error>)
    requires inherited.Some? ==> WellFormed(inherited.value)
    requires Enumerates(names, NameSet(moduleName, name, lower, snake, pascal))
    ensures fresh(c) && c.name == name && c.attributes == attributes
    ensures var loaded := if inherited.Some? then Ok(inherited.value)
                          else Load(kwargs, declared, name, moduleDir, names, files, document, registry);
            match loaded
            case Err(e) => err == Some(e) && c.template.None? && c.templateMethods.None? && c.templateWidgets.None?
            case Ok(t) =>
              && c.template == Some(t)
              && WellFormed(t)
              && err == Register(t, attributes).error
              && c.childCalls == Register(t, attributes).state.calls
              && (err.None? ==> && c.templateMethods == Some(Register(t, attributes).state.methods)
                                && c.templateWidgets == Some(Register(t, attributes).state.widgets))
  {
    c := new TemplateClass(name, declared, attributes, moduleDir, moduleName, inherited);
    err := c.LoadTemplate(kwargs, lower, snake, pascal, names, files, document, registry);
    if err.Some? {
      return;
    }
    err := c.RegisterTemplate();
  }

  // ---------------------------------------------------------------------
  // Instances: do_create_closure and init_template

  /** One `do_create_closure(builder, func_name, flags, obj)` call the
      builder makes while building an instance's template. */
  datatype ClosureRequest = ClosureRequest(funcName: string, swapped: bool)

  /** What `do_create_closure` returns for `req` on an instance with bound
      methods `methods` and attributes `attrs`: nothing for a name that is
      not bound, NotImplementedError for a swapped closure, the error of the
      handler lookup, TypeError when `partial` is given a head that is not
      callable, else the handler and arguments found under the bound
      element's handler name. */
  function CreateClosure(methods: ODict<Value, Element>, attrs: map<string, PyObj>, req: ClosureRequest): Result<Option<Invocation>> {
    var key := StrValue(req.funcName);
    if key !in methods.items then Ok(None)
    else if req.swapped then Err(NotImplementedError)
    else
      match ExtractHandlerAndArgs(ObjectScope(attrs), methods.items[key])
      case Err(e) => Err(e)
      case Ok(h) => if h.handler.Callable? then Ok(Some(h)) else Err(TypeError(NotCallable))
  }

  /** A bound request reads the handler attribute named by its element:
      the attribute's value, unpacked, provided its head is callable. Every
      closure returned has a callable handler. */
  lemma CreateClosureSpec(methods: ODict<Value, Element>, attrs: map<string, PyObj>, req: ClosureRequest)
    ensures CreateClosure(methods, attrs, req) == Ok(None) <==> StrValue(req.funcName) !in methods.items
    ensures StrValue(req.funcName) in methods.items && !req.swapped ==>
              var name := CallbackName(methods.items[StrValue(req.funcName)]);
              && (name.StrValue? && name.s in attrs && Unpack(attrs[name.s]).Ok? ==>
                    CreateClosure(methods, attrs, req)
                    == if Unpack(attrs[name.s]).value.handler.Callable?
                       then Ok(Some(Unpack(attrs[name.s]).value))
                       else Err(TypeError(NotCallable)))
              && (name.StrValue? && name.s in attrs && Unpack(attrs[name.s]).Err? ==>
                    CreateClosure(methods, attrs, req) == Err(Unpack(attrs[name.s]).error))
              && (name.StrValue? && name.s !in attrs ==>
                    CreateClosure(methods, attrs, req) == Err(AttributeError(name.s)))
    ensures StrValue(req.funcName) in methods.items && req.swapped ==>
              CreateClosure(methods, attrs, req) == Err(NotImplementedError)
    ensures CreateClosure(methods, attrs, req).Ok? && CreateClosure(methods, attrs, req).value.Some? ==>
              CreateClosure(methods, attrs, req).value.value.handler.Callable?
  {
  }

  /** A string handler is a sequence of characters: an empty one is
      rejected as empty, and the head of any other is a one-character
      string, which `partial` rejects. */
  lemma StringHandlerRejected(methods: ODict<Value, Element>, attrs: map<string, PyObj>, req: ClosureRequest, s: string)
    requires StrValue(req.funcName) in methods.items && !req.swapped
    requires CallbackName(methods.items[StrValue(req.funcName)]) == StrValue(s)
    requires s in attrs && attrs[s].StrObj?
    ensures CreateClosure(methods, attrs, req).Err?
    ensures CreateClosure(methods, attrs, req).error.TypeError?
  {
  }

  /** The handler names the requests add to `__template_handlers__`: those
      that are bound methods. */
  function Requested(methods: ODict<Value, Element>, requests: seq<ClosureRequest>): set<Value>
    decreases |requests|
  {
    if requests == [] then {}
    else
      var last := StrValue(requests[|requests| - 1].funcName);
      Requested(methods, requests[..|requests| - 1]) + (if last in methods.items then {last} else {})
  }

  lemma {:induction false} RequestedSpec(methods: ODict<Value, Element>, requests: seq<ClosureRequest>)
    ensures forall v :: v in Requested(methods, requests) <==>
              v in methods.items && exists i :: 0 <= i < |requests| && StrValue(requests[i].funcName) == v
    decreases |requests|
  {
    if requests != [] {
      var m := |requests| - 1;
      RequestedSpec(methods, requests[..m]);
      assert forall i :: 0 <= i < m ==> requests[..m][i] == requests[i];
    }
  }

  /** The results of the requests, in order. */
  function Results(methods: ODict<Value, Element>, attrs: map<string, PyObj>, requests: seq<ClosureRequest>): seq<Result<Option<Invocation>>> {
    seq(|requests|, i requires 0 <= i < |requests| => CreateClosure(methods, attrs, requests[i]))
  }

  /** `setattr(self, name, child)` for each bound widget, in table order,
      whose child `built` holds (a child missing from `built` is `None`). */
  function AssignChildren(attrs: map<string, PyObj>, keys: seq<Value>, widgets: map<Value, Element>,
                          built: map<Value, PyObj>): map<string, PyObj>
    requires forall v :: v in keys ==> v in widgets && v.StrValue?
    decreases |keys|
  {
    if keys == [] then attrs
    else
      var m := |keys| - 1;
      var rest := AssignChildren(attrs, keys[..m], widgets, built);
      var id := KeyOf(widgets[keys[m]], "id_");
      if id in built && built[id] != NoneObj then rest[keys[m].s := built[id]] else rest
  }

  /** The child is present: `get_template_child` returns something other
      than None for the widget's id. */
  predicate HasChild(widgets: map<Value, Element>, built: map<Value, PyObj>, v: Value)
    requires v in widgets
  {
    var id := KeyOf(widgets[v], "id_");
    id in built && built[id] != NoneObj
  }

  /** With distinct keys, every widget whose child is present is assigned
      that child under its name. */
  lemma {:induction false} AssignChildrenSet(attrs: map<string, PyObj>, keys: seq<Value>, widgets: map<Value, Element>,
                                            built: map<Value, PyObj>)
    requires forall v :: v in keys ==> v in widgets && v.StrValue?
    requires forall i, j :: 0 <= i < j < |keys| ==> keys[i] != keys[j]
    ensures forall v :: v in keys && HasChild(widgets, built, v) ==>
              v.s in AssignChildren(attrs, keys, widgets, built)
              && AssignChildren(attrs, keys, widgets, built)[v.s] == built[KeyOf(widgets[v], "id_")]
    decreases |keys|
  {
    if keys != [] {
      var m := |keys| - 1;
      var init := keys[..m];
      assert forall v :: v in init ==> v in keys;
      assert forall i, j :: 0 <= i < j < m ==> init[i] == keys[i] && init[j] == keys[j];
      AssignChildrenSet(attrs, init, widgets, built);
      forall v | v in keys && HasChild(widgets, built, v)
        ensures v.s in AssignChildren(attrs, keys, widgets, built)
        ensures AssignChildren(attrs, keys, widgets, built)[v.s] == built[KeyOf(widgets[v], "id_")]
      {
        if v != keys[m] {
          assert v in init;
          assert keys[m] !in init;
          assert v.s != keys[m].s by {
            assert v == StrValue(v.s) && keys[m] == StrValue(keys[m].s);
          }
        }
      }
    }
  }

  /** Every attribute that no widget with a present child is named after
      keeps its value. */
  lemma {:induction false} AssignChildrenKeeps(attrs: map<string, PyObj>, keys: seq<Value>, widgets: map<Value, Element>,
                                              built: map<Value, PyObj>, s: string)
    requires forall v :: v in keys ==> v in widgets && v.StrValue?
    requires StrValue(s) !in keys || !HasChild(widgets, built, StrValue(s))
    ensures s in AssignChildren(attrs, keys, widgets, built) <==> s in attrs
    ensures s in attrs ==> AssignChildren(attrs, keys, widgets, built)[s] == attrs[s]
    decreases |keys|
  {
    if keys != [] {
      var m := |keys| - 1;
      assert forall v :: v in keys[..m] ==> v in keys;
      AssignChildrenKeeps(attrs, keys[..m], widgets, built, s);
      assert keys[m] == StrValue(keys[m].s);
    }
  }

  /** One MissingHandler warning per bound method absent from `handlers`,
      in table order. */
  function MissingHandlers(keys: seq<Value>, handlers: set<Value>): seq<Warning> {
    if keys == [] then []
    else (if keys[0] in handlers then [] else [MissingHandler(keys[0])]) + MissingHandlers(keys[1..], handlers)
  }

  lemma {:induction false} MissingHandlersSpec(keys: seq<Value>, handlers: set<Value>)
    ensures forall v :: MissingHandler(v) in MissingHandlers(keys, handlers) <==> v in keys && v !in handlers
    ensures forall w :: w in MissingHandlers(keys, handlers) ==> w.MissingHandler?
  {
    if keys != [] {
      MissingHandlersSpec(keys[1..], handlers);
      assert forall v :: v in keys <==> v == keys[0] || v in keys[1..];
    }
  }

  /** After `init_template`, a warning names exactly the bound methods that
      no closure request asked for. */
  lemma UnrequestedWarnings(methods: ODict<Value, Element>, requests: seq<ClosureRequest>)
    requires Valid(methods)
    ensures forall v :: MissingHandler(v) in MissingHandlers(methods.keys, Requested(methods, requests)) <==>
              v in methods.items && forall i :: 0 <= i < |requests| ==> StrValue(requests[i].funcName) != v
  {
    RequestedSpec(methods, requests);
    MissingHandlersSpec(methods.keys, Requested(methods, requests));
  }

  /** An instance of a registered template class: the class's tables, the
      instance's attributes, `__template_handlers__`, the warnings logged
      for it and the results its closure requests returned. */
  class Instance {
    const methods: ODict<Value, Element>
    const widgets: ODict<Value, Element>
    var attrs: map<string, PyObj>
    var handlers: set<Value>
    var warnings: seq<Warning>
    var results: seq<Result<Option<Invocation>>>

    ghost predicate Tables()
      reads this
    {
      Valid(methods) && Valid(widgets)
    }

    /** A new instance of `cls`, before `init_template` runs. */
    constructor (cls: TemplateClass, attrs: map<string, PyObj>)
      requires cls.Consistent() && cls.templateMethods.Some? && cls.templateWidgets.Some?
      ensures methods == cls.templateMethods.value && widgets == cls.templateWidgets.value
      ensures this.attrs == attrs && handlers == {} && warnings == [] && results == []
      ensures Tables()
    {
      methods := cls.templateMethods.value;
      widgets := cls.templateWidgets.value;
      this.attrs := attrs;
      handlers := {};
      warnings := [];
      results := [];
    }

    /** `do_create_closure` on this instance: a bound name is added to the
        handlers before anything can fail; an unbound one changes
        nothing. */
    method DoCreateClosure(req: ClosureRequest) returns (r: Result<Option<Invocation>>)
      modifies this`handlers
      ensures r == CreateClosure(methods, attrs, req)
      ensures StrValue(req.funcName) in methods.items ==> handlers == old(handlers) + {StrValue(req.funcName)}
      ensures StrValue(req.funcName) !in methods.items ==> handlers == old(handlers)
    {
      var key := StrValue(req.funcName);
      if key !in methods.items {
        return Ok(None);
      }
      handlers := handlers + {key};
      var element := methods.items[key];
      if req.swapped {
        return Err(NotImplementedError);
      }
      var h := ExtractHandlerAndArgs(ObjectScope(attrs), element);
      if h.Err? {
        return Err(h.error);
      }
      if !h.value.handler.Callable? {
        return Err(TypeError(NotCallable));
      }
      return Ok(Some(h.value));
    }

    /** `init_template`: the handlers are reset, the builder issues
        `requests`, every bound widget whose child `built` holds is assigned
        to its attribute, and a warning is logged for every bound method the
        builder never requested. Widget names are strings, as `setattr`
        demands. */
    method InitTemplate(requests: seq<ClosureRequest>, built: map<Value, PyObj>)
      requires Tables()
      requires forall v :: v in widgets.items ==> v.StrValue?
      modifies this`attrs, this`handlers, this`warnings, this`results
      ensures handlers == Requested(methods, requests)
      ensures results == old(results) + Results(methods, old(attrs), requests)
      ensures attrs == AssignChildren(old(attrs), widgets.keys, widgets.items, built)
      ensures warnings == old(warnings) + MissingHandlers(methods.keys, handlers)
    {
      handlers := {};
      BuildTemplate(requests);
      AssignWidgets(built);
      WarnMissing();
    }

    /** The builder's part of `base_init_template`: one closure request
        after another, starting from no handlers. */
    method BuildTemplate(requests: seq<ClosureRequest>)
      requires handlers == {}
      modifies this`handlers, this`results
      ensures handlers == Requested(methods, requests)
      ensures results == old(results) + Results(methods, attrs, requests)
    {
      var i := 0;
      while i < |requests|
        invariant 0 <= i <= |requests|
        invariant handlers == Requested(methods, requests[..i])
        invariant results == old(results) + Results(methods, attrs, requests[..i])
      {
        assert requests[..i + 1][..i] == requests[..i];
        var r := DoCreateClosure(requests[i]);
        results := results + [r];
        i := i + 1;
      }
      assert requests[..i] == requests;
    }

    /** The loop over `__template_widgets__` that sets each present child. */
    method AssignWidgets(built: map<Value, PyObj>)
      requires Tables()
      requires forall v :: v in widgets.items ==> v.StrValue?
      modifies this`attrs
      ensures attrs == AssignChildren(old(attrs), widgets.keys, widgets.items, built)
    {
      var keys := widgets.keys;
      var j := 0;
      while j < |keys|
        invariant 0 <= j <= |keys|
        invariant attrs == AssignChildren(old(attrs), keys[..j], widgets.items, built)
      {
        assert keys[..j + 1][..j] == keys[..j];
        var element := widgets.items[keys[j]];
        var id := KeyOf(element, "id_");
        if id in built && built[id] != NoneObj {
          attrs := attrs[keys[j].s := built[id]];
        }
        j := j + 1;
      }
      assert keys[..j] == keys;
    }

    /** The loop over `__template_methods__` that warns for each method not
        among the handlers. */
    method WarnMissing()
      modifies this`warnings
      ensures warnings == old(warnings) + MissingHandlers(methods.keys, handlers)
    {
      var names := methods.keys;
      var k := 0;
      while k < |names|
        invariant 0 <= k <= |names|
        invariant warnings == old(warnings) + MissingHandlers(names[..k], handlers)
      {
        MissingHandlersSnoc(names[..k + 1], handlers);
        assert names[..k + 1][..k] == names[..k];
        if names[k] !in handlers {
          warnings := warnings + [MissingHandler(names[k])];
        }
        k := k + 1;
      }
      assert names[..k] == names;
    }
  }

  /** `MissingHandlers` extended by one key. */
  lemma {:induction false} MissingHandlersSnoc(keys: seq<Value>, handlers: set<Value>)
    requires keys != []
    ensures MissingHandlers(keys, handlers)
         == MissingHandlers(keys[..|keys| - 1], handlers)
            + (if keys[|keys| - 1] in handlers then [] else [MissingHandler(keys[|keys| - 1])])
    decreases |keys|
  {
    if |keys| > 1 {
      MissingHandlersSnoc(keys[1..], handlers);
      assert keys[1..][..|keys| - 2] == keys[..|keys| - 1][1..];
    }
  }
}
