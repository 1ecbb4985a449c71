/** `Template.from_element_tree`: the `<template>` element's checks, the
    parent type's resolution and the four element tables. */
module Templates {
  import opened Values
  import opened Dict
  import opened Xml
  import opened Elements

  /** What `GObject.type_from_name` and `.pytype` answer: type names that
      resolve to a GType map to the Python type of that GType, if any. */
  type Registry = map<string, Option<string>>

  /** A parsed template: the class name, the parent's Python type, the four
      element tables and the document it was parsed from. */
  datatype Template = Template(
    className: string,
    parentType: string,
    signals: ODict<Value, Element>,
    closures: ODict<Value, Element>,
    children: ODict<Value, Element>,
    menus: ODict<Value, Element>,
    source: Node)

  /** The four element tables of a template. */
  datatype Tables = Tables(
    signals: ODict<Value, Element>,
    closures: ODict<Value, Element>,
    children: ODict<Value, Element>,
    menus: ODict<Value, Element>)

  /** The four `parse_elements` calls of `from_element_tree`, in argument
      order, each over the whole document. */
  function ParseTables(tree: Node): Result<Tables> {
    match ParsedElements(Signal, tree, "handler")
    case Err(e) => Err(e)
    case Ok(signals) =>
      match ParsedElements(Closure, tree, "function")
      case Err(e) => Err(e)
      case Ok(closures) =>
        match ParsedElements(Object, tree, "id_")
        case Err(e) => Err(e)
        case Ok(children) =>
          match ParsedElements(Menu, tree, "id_")
          case Err(e) => Err(e)
          case Ok(menus) => Ok(Tables(signals, closures, children, menus))
  }

  /** `Template.from_element_tree(tree)`. */
  function FromElementTree(tree: Node, registry: Registry): Result<Template> {
    match Find(tree, "template")
    case None => Err(KeyError(StrValue("template")))
    case Some(element) =>
      var className := Get(element, "class", NoneValue);
      var parent := Get(element, "parent", NoneValue);
      if className == NoneValue then Err(AttributeError("class"))
      else if parent == NoneValue then Err(AttributeError("parent"))
      else if parent.s !in registry then Err(UnresolvedGType(parent.s))
      else if registry[parent.s].None? then Err(NoPythonType(parent.s))
      else
        match ParseTables(tree)
        case Err(e) => Err(e)
        case Ok(t) =>
          Ok(Template(className.s, registry[parent.s].value, t.signals, t.closures, t.children, t.menus, tree))
  }

  /** The checks on the `<template>` element come first, in a fixed order:
      no `<template>` descendant, then no `class`, then no `parent`, then a
      parent name that does not resolve, then a resolved type without a
      Python type. Whatever the element tables hold, each of these failures
      decides the result. */
  lemma TemplateChecksInOrder(tree: Node, registry: Registry)
    ensures FindAll(tree, "template") == [] ==>
              FromElementTree(tree, registry) == Err(KeyError(StrValue("template")))
    ensures FindAll(tree, "template") != [] ==>
              var t := FindAll(tree, "template")[0];
              && ("class" !in t.attrs ==> FromElementTree(tree, registry) == Err(AttributeError("class")))
              && ("class" in t.attrs && "parent" !in t.attrs ==>
                    FromElementTree(tree, registry) == Err(AttributeError("parent")))
              && ("class" in t.attrs && "parent" in t.attrs && t.attrs["parent"] !in registry ==>
                    FromElementTree(tree, registry) == Err(UnresolvedGType(t.attrs["parent"])))
              && ("class" in t.attrs && "parent" in t.attrs && t.attrs["parent"] in registry
                    && registry[t.attrs["parent"]].None? ==>
                    FromElementTree(tree, registry) == Err(NoPythonType(t.attrs["parent"])))
  {
  }

  /** Once the `<template>` element passes its checks, the result is decided
      by the element tables: their error if one fails, otherwise a template
      whose class name is the `class` attribute, whose parent type is the
      resolved Python type and whose tables are parsed from the whole
      document. */
  lemma TemplateResult(tree: Node, registry: Registry)
    requires FindAll(tree, "template") != []
    requires var t := FindAll(tree, "template")[0];
             && "class" in t.attrs && "parent" in t.attrs
             && t.attrs["parent"] in registry && registry[t.attrs["parent"]].Some?
    ensures ParseTables(tree).Err? ==> FromElementTree(tree, registry) == Err(ParseTables(tree).error)
    ensures ParseTables(tree).Ok? ==>
              var t := FindAll(tree, "template")[0];
              FromElementTree(tree, registry)
              == Ok(Template(t.attrs["class"], registry[t.attrs["parent"]].value,
                             ParseTables(tree).value.signals, ParseTables(tree).value.closures,
                             ParseTables(tree).value.children, ParseTables(tree).value.menus, tree))
  {
  }

  /** The four tables are well-formed dicts. */
  ghost predicate WellFormed(t: Template) {
    Valid(t.signals) && Valid(t.closures) && Valid(t.children) && Valid(t.menus)
  }

  lemma TemplateWellFormed(tree: Node, registry: Registry)
    requires FromElementTree(tree, registry).Ok?
    ensures WellFormed(FromElementTree(tree, registry).value)
  {
    TemplateTables(tree, registry);
    ParsedElementsValid(Signal, tree, "handler");
    ParsedElementsValid(Closure, tree, "function");
    ParsedElementsValid(Object, tree, "id_");
    ParsedElementsValid(Menu, tree, "id_");
  }

  /** The tables are parsed in the order signals, closures, objects, menus:
      the first that fails decides the error; they all succeed exactly when
      each does. */
  lemma TablesInOrder(tree: Node)
    ensures ParsedElements(Signal, tree, "handler").Err? ==>
              ParseTables(tree) == Err(ParsedElements(Signal, tree, "handler").error)
    ensures ParsedElements(Signal, tree, "handler").Ok? && ParsedElements(Closure, tree, "function").Err? ==>
              ParseTables(tree) == Err(ParsedElements(Closure, tree, "function").error)
    ensures ParsedElements(Signal, tree, "handler").Ok? && ParsedElements(Closure, tree, "function").Ok?
              && ParsedElements(Object, tree, "id_").Err? ==>
              ParseTables(tree) == Err(ParsedElements(Object, tree, "id_").error)
    ensures ParsedElements(Signal, tree, "handler").Ok? && ParsedElements(Closure, tree, "function").Ok?
              && ParsedElements(Object, tree, "id_").Ok? && ParsedElements(Menu, tree, "id_").Err? ==>
              ParseTables(tree) == Err(ParsedElements(Menu, tree, "id_").error)
    ensures ParseTables(tree).Ok? <==>
              && ParsedElements(Signal, tree, "handler").Ok? && ParsedElements(Closure, tree, "function").Ok?
              && ParsedElements(Object, tree, "id_").Ok? && ParsedElements(Menu, tree, "id_").Ok?
  {
  }

  /** A table keyed by field `i` of its element class: its keys are exactly
      the non-None values that field takes on the found elements, and each
      entry is the element of a found node whose field holds its key. */
  lemma TableKeys(k: Kind, tree: Node, i: nat)
    requires i < |Schema(k)|
    requires ParsedElements(k, tree, Schema(k)[i].name).Ok?
    ensures forall v :: v in ParsedElements(k, tree, Schema(k)[i].name).value.items <==>
              (v != NoneValue && exists n :: n in FindElements(TemplateTags(k), tree) && Lookup(Schema(k)[i], n) == Some(v))
    ensures forall v :: v in ParsedElements(k, tree, Schema(k)[i].name).value.items ==>
              var e := ParsedElements(k, tree, Schema(k)[i].name).value.items[v];
              && e.kind == k
              && e.node in FindElements(TemplateTags(k), tree)
              && Lookup(Schema(k)[i], e.node) == Some(v)
  {
    var key := Schema(k)[i].name;
    ParsedElementsOk(k, tree, key);
    ParsedElementsKeys(k, tree, key);
    ParsedElementsEntries(k, tree, key);
    forall n | n in FindElements(TemplateTags(k), tree)
      ensures ElementOf(k, n).Ok? && ElementOf(k, n).value.kind == k && ElementOf(k, n).value.node == n
      ensures Lookup(Schema(k)[i], n).Some? && KeyOf(ElementOf(k, n).value, key) == Lookup(Schema(k)[i], n).value
    {
      ElementOfSpec(k, n);
    }
  }

  /** A parsed template's tables are the four `parse_elements` results. */
  lemma TemplateTables(tree: Node, registry: Registry)
    requires FromElementTree(tree, registry).Ok?
    ensures ParsedElements(Signal, tree, "handler") == Ok(FromElementTree(tree, registry).value.signals)
    ensures ParsedElements(Closure, tree, "function") == Ok(FromElementTree(tree, registry).value.closures)
    ensures ParsedElements(Object, tree, "id_") == Ok(FromElementTree(tree, registry).value.children)
    ensures ParsedElements(Menu, tree, "id_") == Ok(FromElementTree(tree, registry).value.menus)
  {
    TablesInOrder(tree);
  }

  /** An `<object>` element parses exactly when it has a `class`; its
      record then holds `class` as `type_name` and its `id` (or None) as
      `id_`. */
  lemma ObjectRecord(n: Node)
    ensures ElementOf(Object, n).Ok? <==> "class" in n.attrs
    ensures ElementOf(Object, n).Ok? ==>
              && ElementOf(Object, n).value.kind == Object
              && ElementOf(Object, n).value.node == n
              && KeyOf(ElementOf(Object, n).value, "type_name") == StrValue(n.attrs["class"])
              && KeyOf(ElementOf(Object, n).value, "id_") == Get(n, "id", NoneValue)
  {
    ElementOk(Object, n);
    var fs := Schema(Object);
    assert fs[0].name == "type_name" && AttrName(fs[0]) == "class" && fs[0].required;
    assert fs[1].name == "id_" && AttrName(fs[1]) == "id" && fs[1].default == NoneValue;
    assert forall i :: 1 <= i < |fs| ==> !fs[i].required;
    if ElementOf(Object, n).Ok? {
      ElementField(Object, n, 0);
      ElementField(Object, n, 1);
    }
  }

  /** The children table is keyed by the `id` of the `<object>` elements of
      the whole document: an `<object>` without an `id` never appears. */
  lemma ChildrenById(tree: Node)
    requires ParsedElements(Object, tree, "id_").Ok?
    ensures var children := ParsedElements(Object, tree, "id_").value;
            forall v :: v in children.items <==>
              exists n :: n in FindAll(tree, "object") && "id" in n.attrs && v == StrValue(n.attrs["id"])
  {
    var children := ParsedElements(Object, tree, "id_").value;
    assert FindElements(TemplateTags(Object), tree) == FindAll(tree, "object");
    ParsedElementsOk(Object, tree, "id_");
    ParsedElementsKeys(Object, tree, "id_");
    forall n | n in FindAll(tree, "object") ensures ElementOf(Object, n).Ok? && KeyOf(ElementOf(Object, n).value, "id_") == Get(n, "id", NoneValue) {
      ObjectRecord(n);
    }
  }

  /** Each child is the record of an `<object>` element with an `id`, stored
      under that `id`, with its `class` as `type_name`. */
  lemma ChildRecords(tree: Node)
    requires ParsedElements(Object, tree, "id_").Ok?
    ensures var children := ParsedElements(Object, tree, "id_").value;
            forall v :: v in children.items ==>
              && children.items[v].kind == Object
              && children.items[v].node in FindAll(tree, "object")
              && "id" in children.items[v].node.attrs && "class" in children.items[v].node.attrs
              && v == StrValue(children.items[v].node.attrs["id"])
              && KeyOf(children.items[v], "id_") == v
              && KeyOf(children.items[v], "type_name") == StrValue(children.items[v].node.attrs["class"])
  {
    var children := ParsedElements(Object, tree, "id_").value;
    assert FindElements(TemplateTags(Object), tree) == FindAll(tree, "object");
    ParsedElementsEntries(Object, tree, "id_");
    ParsedElementsKeys(Object, tree, "id_");
    forall v | v in children.items
      ensures children.items[v].kind == Object && children.items[v].node in FindAll(tree, "object")
      ensures "id" in children.items[v].node.attrs && "class" in children.items[v].node.attrs
      ensures v == StrValue(children.items[v].node.attrs["id"])
      ensures KeyOf(children.items[v], "type_name") == StrValue(children.items[v].node.attrs["class"])
    {
      var n :| n in FindAll(tree, "object") && ElementOf(Object, n) == Ok(children.items[v]);
      ObjectRecord(n);
      assert v != NoneValue && KeyOf(children.items[v], "id_") == v;
    }
  }

  /** A `<menu>`, `<submenu>` or `<section>` element always parses; its
      record holds its `id` (or None) as `id_`, and its `name` is that same
      value. */
  lemma MenuRecord(n: Node)
    ensures ElementOf(Menu, n).Ok?
    ensures ElementOf(Menu, n).value.kind == Menu && ElementOf(Menu, n).value.node == n
    ensures KeyOf(ElementOf(Menu, n).value, "id_") == Get(n, "id", NoneValue)
    ensures Name(ElementOf(Menu, n).value) == KeyOf(ElementOf(Menu, n).value, "id_")
  {
    ElementOk(Menu, n);
    var fs := Schema(Menu);
    assert fs[0].name == "id_" && AttrName(fs[0]) == "id" && fs[0].default == NoneValue;
    assert forall i :: 0 <= i < |fs| ==> !fs[i].required;
    ElementField(Menu, n, 0);
  }

  /** The menus table holds the menu elements of the whole document that
      carry an `id`, keyed by it; each menu's `name` equals its key. */
  lemma MenusById(tree: Node)
    ensures ParsedElements(Menu, tree, "id_").Ok?
    ensures var menus := ParsedElements(Menu, tree, "id_").value;
            forall v :: v in menus.items <==>
              exists n :: n in FindElements(TemplateTags(Menu), tree) && "id" in n.attrs && v == StrValue(n.attrs["id"])
    ensures var menus := ParsedElements(Menu, tree, "id_").value;
            forall v :: v in menus.items ==>
              && menus.items[v].kind == Menu
              && menus.items[v].node.tag in TemplateTags(Menu)
              && Name(menus.items[v]) == v
  {
    forall n | n in FindElements(TemplateTags(Menu), tree)
      ensures ElementOf(Menu, n).Ok? && KeyOf(ElementOf(Menu, n).value, "id_") == Get(n, "id", NoneValue)
    {
      MenuRecord(n);
    }
    ParsedElementsOk(Menu, tree, "id_");
    ParsedElementsKeys(Menu, tree, "id_");
    ParsedElementsEntries(Menu, tree, "id_");
    FindElementsMembers(TemplateTags(Menu), tree);
    var menus := ParsedElements(Menu, tree, "id_").value;
    forall v | v in menus.items
      ensures menus.items[v].kind == Menu && menus.items[v].node.tag in TemplateTags(Menu) && Name(menus.items[v]) == v
    {
      var n :| n in FindElements(TemplateTags(Menu), tree) && ElementOf(Menu, n) == Ok(menus.items[v]);
      MenuRecord(n);
    }
  }

  /** The signals table holds the `<signal>` elements of the whole document,
      keyed by their `handler`. */
  lemma SignalsByHandler(tree: Node)
    requires ParsedElements(Signal, tree, "handler").Ok?
    ensures var signals := ParsedElements(Signal, tree, "handler").value;
            forall v :: v in signals.items <==>
              exists n :: n in FindAll(tree, "signal") && "handler" in n.attrs && v == StrValue(n.attrs["handler"])
  {
    assert FindElements(TemplateTags(Signal), tree) == FindAll(tree, "signal");
    var fs := Schema(Signal);
    assert fs[1].name == "handler" && AttrName(fs[1]) == "handler" && fs[1].required;
    TableKeys(Signal, tree, 1);
  }

  /** The closures table holds the `<closure>` elements of the whole
      document, keyed by their `function`. */
  lemma ClosuresByFunction(tree: Node)
    requires ParsedElements(Closure, tree, "function").Ok?
    ensures var closures := ParsedElements(Closure, tree, "function").value;
            forall v :: v in closures.items <==>
              exists n :: n in FindAll(tree, "closure") && "function" in n.attrs && v == StrValue(n.attrs["function"])
  {
    assert FindElements(TemplateTags(Closure), tree) == FindAll(tree, "closure");
    var fs := Schema(Closure);
    assert fs[0].name == "function" && AttrName(fs[0]) == "function" && fs[0].required;
    TableKeys(Closure, tree, 0);
  }
}
