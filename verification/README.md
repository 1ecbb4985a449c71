# pygobject-templatemeta: template parser and binder

A model of the core of `pygobject_templatemeta`, a metaclass that builds
GTK widget classes from GtkBuilder XML templates. It has two parts.

* **Template parsing** (`template.py`). An already-parsed XML tree becomes a
  `Template` record. Each element class (`SignalElement`, `ClosureElement`,
  `ObjectElement`, `MenuElement`) has a field schema. For each field the
  schema gives the Python name, the XML attribute name, whether the field is
  required, and its default. `get_attributes` resolves a field schema
  against an XML element. `BaseElement.__init__` sets the fields.
  `find_elements` searches descendants by the class's template tags.
  `parse_elements` collects the found elements into a dict keyed by one
  field. `from_element_tree` checks the `<template>` element in a fixed
  order and then builds the four tables.
* **Class binding** (`meta.py`). `TemplateMeta.load_template` picks the
  template source by priority, or else discovers a template file next to
  the module. `register_template` fills `bound_widgets` and `bound_methods`
  (menus, then children, then signals and closures). Each instance keeps
  the set of handlers the builder actually asked for (`do_create_closure`).
  `init_template` assigns the built children and warns about bound methods
  that were never requested. `extract_handler_and_args` turns a handler
  value into a callable and its extra arguments.

Modules:

| file | module | models |
|---|---|---|
| values.dfy | `Values` | Python values (`None`, `bool`, `str`, the `MISSING` sentinel), truthiness, `or`, the exceptions raised |
| dict.dfy | `Dict` | insertion-ordered `dict` (`ODict`): keys in order and a map of values |
| xml.dfy | `Xml` | the element tree; `.//tag` searches in document order; `get` |
| elements.dfy | `Elements` | field schemas, `get_attr_name`, `get_attributes`, `BaseElement.__init__`, `from_element`, `__init_subclass__`, `find_elements`, `parse_elements` |
| template.dfy | `Templates` | `Template.from_element_tree` and the tables it builds |
| sample.dfy | `TemplateSample` | the document of the package's own test, parsed |
| binding.dfy | `Binding`, `Registration` | `bind_menu`, `bind_child`, `bind_callback` as functions of the tables so far; `register_template` as a whole |
| handlers.dfy | `Handlers` | `extract_handler_and_args` |
| load.dfy | `Loading` | source priority and candidate file names of `load_template` |
| meta.dfy | `Meta` | the imperative side: `TemplateClass` (`load_template`, `register_template`), `Instance` (`do_create_closure`, `init_template`) |

The loops of the source are methods. Each method is proved equal to a
specification function: `GetAttributes`, `SetFields`, `ParseElements`,
`FindTemplateFile`, `SelectSource`, and the binding loops. The properties
the source promises are lemmas about those functions. The class attributes
that `TemplateMeta` writes are fields of `Meta.TemplateClass`. The
per-instance state is held in fields of `Meta.Instance`.

## Model

| member | source | states |
|---|---|---|
| Elements.XmlNames | pygobject_templatemeta/template.py:51-55 | the XML attribute of a field is its `name` metadata when given, else its Python name: `class`→`type_name`, `id`→`id_`, `type`→`type_` |
| Elements.Schema | pygobject_templatemeta/template.py:178-220 | the four element schemas have distinct Python field names; no default is `MISSING` |
| Elements.FieldNamed | pygobject_templatemeta/template.py:76-79 | a name is found exactly when a declared field has it, and the field found has that name |
| Elements.FieldNamedDistinct | pygobject_templatemeta/template.py:79 | with distinct names, looking up a field's own name finds that field |
| Elements.AttributesOfKeys | pygobject_templatemeta/template.py:105-116 | on success the attribute dict has one key per declared field, keyed by the Python name, in declaration order, with no duplicates |
| Elements.AttributesOfOk | pygobject_templatemeta/template.py:105-116 | if every field resolves, the dict holds each field's XML value, or its default when the attribute is absent |
| Elements.AttributesOfErr | pygobject_templatemeta/template.py:110-112 | the first required field with an absent attribute raises AttributeError naming its XML attribute |
| Elements.GetAttributes | pygobject_templatemeta/template.py:99-116 | the loop over the fields computes exactly `Attributes(k, node)` |
| Elements.InitFieldsOk | pygobject_templatemeta/template.py:73-92 | with no required field given `MISSING`, every declared attribute is set, no undeclared one is set, and each gets its value (its default in place of `MISSING`) |
| Elements.InitFieldsErr | pygobject_templatemeta/template.py:80-82 | the first declared required attribute whose value is `MISSING` raises AttributeError with the field's XML name |
| Elements.SetFields | pygobject_templatemeta/template.py:75-92 | the `setattr` loop of `__init__` computes exactly `InitFields` over the attribute dict in order |
| Elements.InitElement | pygobject_templatemeta/template.py:73-92 | `__init__` on a fresh instance gives exactly `Construct` |
| Elements.ConstructAttributes | pygobject_templatemeta/template.py:119-125 | when every field resolves, `__init__` on `get_attributes`' dict succeeds and sets every field to the resolved value and nothing else |
| Elements.ElementOfSpec | pygobject_templatemeta/template.py:118-125 | `from_element` succeeds iff every field resolves; a failure is the AttributeError of the first unresolved field; a success has the class, the node and every field set to its resolved value |
| Elements.ElementOk | pygobject_templatemeta/template.py:105-125 | `from_element` succeeds iff every required field's XML attribute is present |
| Elements.ElementField | pygobject_templatemeta/template.py:105-116 | field `i` of a built element is `node.get(xml name, default)` |
| Elements.FromElement | pygobject_templatemeta/template.py:119-125 | the method computes exactly `ElementOf` |
| Elements.ElementClass.constructor | pygobject_templatemeta/template.py:146-147 | a new element class starts with an empty tag list |
| Elements.ElementClass.InitSubclass | pygobject_templatemeta/template.py:140-154 | a falsy `tag` changes nothing, a string appends one tag, a list appends its tags in order |
| Elements.DeclareElementClass | pygobject_templatemeta/template.py:179-213 | the four class statements give the tags `signal`, `closure`, `object`, and `menu`, `submenu`, `section` |
| Xml.WithTagMembers | pygobject_templatemeta/template.py:135-136 | a tag search keeps exactly the nodes with that tag |
| Elements.FindElementsMembers | pygobject_templatemeta/template.py:134-137 | `find_elements` returns exactly the descendants whose tag is registered; no tags gives nothing |
| Elements.FindElementsByTag | pygobject_templatemeta/template.py:134-137 | the result is grouped tag by tag: the nodes of one registered tag are that tag's `.//tag` search, in document order |
| Elements.MenuSearchOrder | pygobject_templatemeta/template.py:134-137 | menu elements are all `menu`s, then all `submenu`s, then all `section`s |
| Elements.CollectKeys | pygobject_templatemeta/template.py:167-175 | the collected dict is well formed; its keys are exactly the non-None keys of the elements; each entry is one of the elements, stored under its own key |
| Elements.CollectLastWins | pygobject_templatemeta/template.py:173 | on a repeated key the last element with that key is the one kept |
| Elements.ParsedElementsOk | pygobject_templatemeta/template.py:168-169 | `parse_elements` succeeds iff every found element can be built |
| Elements.ParsedElementsErr | pygobject_templatemeta/template.py:168-169 | it fails with the error of the first found element that cannot be built |
| Elements.ParsedElementsKeys | pygobject_templatemeta/template.py:167-175 | its keys are exactly the non-None key values of the found elements |
| Elements.ParsedElementsEntries | pygobject_templatemeta/template.py:167-175 | every entry is the element built from a found node, stored under its own key |
| Elements.ParsedElementsValid | pygobject_templatemeta/template.py:167-175 | the parsed dict is well formed |
| Elements.ParseElements | pygobject_templatemeta/template.py:160-175 | the loop computes exactly `ParsedElements` |
| Templates.TemplateChecksInOrder | pygobject_templatemeta/template.py:261-279 | the failures come in a fixed order: no `<template>` → KeyError, no `class` → AttributeError('class'), no `parent` → AttributeError('parent'), unresolved type → RuntimeError, no Python type → RuntimeError |
| Templates.TemplateResult | pygobject_templatemeta/template.py:281-287 | past the checks, the result has the `class` attribute as class name and the resolved Python type as parent, plus the four tables; a table's error propagates |
| Templates.TablesInOrder | pygobject_templatemeta/template.py:281-285 | the tables are built in the order signals, closures, objects, menus; the first error wins |
| Templates.TemplateTables | pygobject_templatemeta/template.py:281-286 | signals are keyed by `handler`, closures by `function`, children and menus by `id_`; each table is searched over the whole tree |
| Templates.TemplateWellFormed | pygobject_templatemeta/template.py:281-285 | the four tables of a parsed template are well-formed dicts |
| Templates.TableKeys | pygobject_templatemeta/template.py:282-285 | a table's keys are exactly the non-None values of its key field among the found nodes; each entry is built from such a node |
| Templates.ObjectRecord | pygobject_templatemeta/template.py:196-201 | an `<object>` builds iff it has `class`; then `type_name` is its `class` and `id_` its `id` or None |
| Templates.ChildrenById | pygobject_templatemeta/template.py:284 | the children's keys are exactly the `id`s of `<object>` descendants that have one, so an object without an id never appears |
| Templates.ChildRecords | pygobject_templatemeta/template.py:284 | each child is an object element built from an `<object>` that has `id` and `class`, keyed by its `id_`, with `type_name` its `class` |
| Templates.MenuRecord | pygobject_templatemeta/template.py:213-220 | a menu element always builds, and its `name` equals its `id_` |
| Templates.MenusById | pygobject_templatemeta/template.py:285 | the menus' keys are exactly the ids of `menu`/`submenu`/`section` descendants; each menu's name is its key |
| Templates.SignalsByHandler | pygobject_templatemeta/template.py:282 | the signals' keys are exactly the `handler`s of `<signal>` descendants |
| Templates.ClosuresByFunction | pygobject_templatemeta/template.py:283 | the closures' keys are exactly the `function`s of `<closure>` descendants |
| TemplateSample.Searches | pygobject_templatemeta/test_template.py:8-19 | in the test document the searches find one template, one signal, one object, and no closure or menu |
| TemplateSample.SampleSignals | pygobject_templatemeta/test_template.py:8-19 | the test document's signal table has the single key `on_test_notify` |
| TemplateSample.SampleChildren | pygobject_templatemeta/test_template.py:27-29 | the test document's children table holds exactly `test_button` |
| TemplateSample.SampleTemplate | pygobject_templatemeta/test_template.py:24-33 | the test document parses to class `TemplateTest` with parent `Gtk.Widget` and exactly one child, `test_button`, whose `type_name` is `GtkButton` and `id_` is `test_button` |
| Loading.SourcePriority | pygobject_templatemeta/meta.py:66-80 | a truthy template string wins, then a resource, then a path; there is no explicit source iff all three are falsy |
| Loading.KeywordShadowsAttribute | pygobject_templatemeta/meta.py:66-77 | a keyword argument replaces the class attribute even when falsy |
| Loading.CandidateBlocks | pygobject_templatemeta/meta.py:94-96 | the candidates are the `.ui` names, then the `.xml` names, then the `.glade` names |
| Loading.CandidatesLayout | pygobject_templatemeta/meta.py:94-96 | there are three candidates per name; candidate `i`, `n+i` and `2n+i` are name `i` with `.ui`, `.xml` and `.glade`, so every `.ui` candidate precedes every `.xml` one, which precedes every `.glade` one |
| Loading.FirstExistingSpec | pygobject_templatemeta/meta.py:98-101 | the chosen file exists and no earlier candidate does; nothing is chosen iff no candidate exists |
| Meta.FindTemplateFile | pygobject_templatemeta/meta.py:98-101 | the loop that breaks at the first existing file computes `FirstExisting` |
| Meta.SelectSource | pygobject_templatemeta/meta.py:64-104 | the selection computes `TemplateSource`: the explicit source, else the first existing candidate file, else ValueError |
| Meta.TemplateClass.constructor | pygobject_templatemeta/meta.py:37-42 | a new class starts with the `__template__` it inherits or its body sets, if any, and its method and widget tables are None |
| Meta.DefineClass | pygobject_templatemeta/meta.py:44-62 | a class with an inherited or preset template registers that template without loading one; otherwise it loads from the selected source and registers the result, or the load error is returned with nothing set |
| Meta.TemplateClass.LoadTemplate | pygobject_templatemeta/meta.py:60-111 | a class that has a template keeps it; otherwise its template becomes the one parsed from the selected source, or the error is returned and no template is set |
| Binding.BindMenusKeys | pygobject_templatemeta/meta.py:149-160 | binding menus keeps earlier widgets and the methods, and binds exactly the names of menus that have an id |
| Binding.BindMenusFirstWins | pygobject_templatemeta/meta.py:155-159 | the first menu with a given name is the one bound; later ones are skipped |
| Binding.BindMenusCalls | pygobject_templatemeta/meta.py:159-160 | binding menus only appends bind calls, each with internal=False |
| Binding.BindMenusWarnings | pygobject_templatemeta/meta.py:151-157 | binding menus only appends warnings: every menu with an id that is skipped because its name is taken gets an AlreadyBound warning, and every warning is one of those |
| Meta.BindMenuLoop | pygobject_templatemeta/meta.py:149-171 | the menu loop computes `BindMenus` from empty tables |
| Binding.BindChildrenOk | pygobject_templatemeta/meta.py:129-130 | binding children succeeds iff every child's key is unbound and no two children share a key |
| Binding.BindChildrenErr | pygobject_templatemeta/meta.py:129-130 | the first child whose key is already bound raises KeyError with that key |
| Binding.BindChildrenStops | pygobject_templatemeta/meta.py:129-130 | once a KeyError is raised, later children change nothing |
| Binding.BindChildrenOnly | pygobject_templatemeta/meta.py:123-133 | with fresh keys, only the children's keys are added |
| Binding.BindChildrenWidgets | pygobject_templatemeta/meta.py:125-132 | each child is bound under `name or id_`, with `name` rewritten to that key |
| Binding.BindChildrenState | pygobject_templatemeta/meta.py:132-133 | binding children keeps earlier widgets and the methods, and issues one `(id_, internal)` call per child, in order |
| Meta.BindChildLoop | pygobject_templatemeta/meta.py:123-133 | the child loop computes `BindChildren`, stopping at the first KeyError |
| Binding.BindCallbacksKeys | pygobject_templatemeta/meta.py:135-147 | binding callbacks keeps widgets, calls and earlier methods, and binds exactly the handler/function names the class defines |
| Binding.BindCallbacksFirstWins | pygobject_templatemeta/meta.py:139-147 | the first defined callback with a given name is the one bound |
| Binding.BindCallbacksWarnings | pygobject_templatemeta/meta.py:135-145 | binding callbacks only appends warnings: every callback that is not bound gets AlreadyBound or MethodNotFound for its name, and every warning is one of those two for a name in the list, MethodNotFound only for a name the class lacks |
| Binding.SignalsBeforeClosures | pygobject_templatemeta/meta.py:167-168 | a defined name carried by a signal is bound to a signal, never to a closure |
| Meta.BindCallbackLoop | pygobject_templatemeta/meta.py:135-147 | the callback loop computes `BindCallbacks` |
| Registration.RegisterOk | pygobject_templatemeta/meta.py:164-171 | registration succeeds iff child keys are distinct and none equals a bound menu's name, since menus are bound first |
| Registration.RegisterWidgets | pygobject_templatemeta/meta.py:164-174 | on success every child is bound under its key; the widgets are only child keys and menu names; the calls are the menus' and then one per child |
| Registration.RegisterMethods | pygobject_templatemeta/meta.py:164-173 | on success the methods are exactly the defined handler and function names |
| Registration.RegisterSignalsWin | pygobject_templatemeta/meta.py:167-168 | on success a defined signal handler name is bound to a signal |
| Registration.RegisterValid | pygobject_templatemeta/meta.py:173-174 | the stored tables are well-formed dicts |
| Meta.TemplateClass.RegisterTemplate | pygobject_templatemeta/meta.py:117-174 | the tables stored are `Register`'s on success and unchanged on KeyError; the bind calls and warnings issued are recorded in both cases |
| Handlers.UnpackSpec | pygobject_templatemeta/meta.py:224-234 | a non-empty sequence gives (head, rest) and packs back to itself; an empty sequence raises TypeError; a callable gives (value, ()); anything else raises TypeError |
| Handlers.UnpackPack | pygobject_templatemeta/meta.py:225-229 | unpacking `(handler, *args)` gives back the handler and the args |
| Handlers.ExtractByName | pygobject_templatemeta/meta.py:217-222 | the handler is the attribute named by the signal's `handler` or the closure's `function`; a missing attribute raises AttributeError; when the name is present, a mapping with the same entries gives the same result |
| Handlers.ObjectScopeUnchanged | pygobject_templatemeta/meta.py:221-222 | on objects the code as written and the corrected code agree |
| Handlers.MappingLookupFails | pygobject_templatemeta/meta.py:219-220 | a mapping holding a callable under the handler name: as written TypeError, corrected the callable |
| Meta.CreateClosureSpec | pygobject_templatemeta/meta.py:259-275 | nothing is returned iff the name is not a bound method; a swapped closure raises NotImplementedError; otherwise the handler comes from the bound element's handler attribute, and `partial` raises TypeError when it is not callable; every closure returned has a callable handler |
| Meta.StringHandlerRejected | pygobject_templatemeta/meta.py:225-275 | a bound handler attribute holding a string makes creating the closure raise TypeError: an empty string is an empty sequence, and a non-empty one has a one-character string as its head, which `partial` refuses |
| Meta.Instance.DoCreateClosure | pygobject_templatemeta/meta.py:259-273 | an unbound name leaves the handler set unchanged; a bound name is added to it before the swapped check can raise |
| Meta.RequestedSpec | pygobject_templatemeta/meta.py:259-262 | the recorded handlers are exactly the bound methods some request named |
| Meta.Instance.BuildTemplate | pygobject_templatemeta/meta.py:193-196 | starting from no handlers, the requests leave exactly `Requested` in the set, and each request's result is recorded |
| Meta.AssignChildrenSet | pygobject_templatemeta/meta.py:198-202 | every bound widget whose child is non-null is set as the attribute named by its key |
| Meta.AssignChildrenKeeps | pygobject_templatemeta/meta.py:198-202 | every other attribute keeps its value |
| Meta.Instance.AssignWidgets | pygobject_templatemeta/meta.py:198-202 | the widget loop computes `AssignChildren` |
| Meta.MissingHandlersSpec | pygobject_templatemeta/meta.py:204-207 | a warning is issued for exactly the bound methods not in the handler set |
| Meta.Instance.WarnMissing | pygobject_templatemeta/meta.py:204-207 | the method loop appends `MissingHandlers` in table order |
| Meta.UnrequestedWarnings | pygobject_templatemeta/meta.py:193-207 | after `init_template`, warnings name exactly the bound methods that no request asked for |
| Meta.Instance.InitTemplate | pygobject_templatemeta/meta.py:187-207 | the handler set is reset and then holds exactly the requested bound methods; children are assigned; one warning per unrequested method |

## Left out

- XML text parsing and serialisation (`ET.fromstring`, `ET.tostring`, `from_string`, `from_bytes`) are not modelled. The model starts from an already-parsed tree. `Template.source` keeps that tree in place of the serialised bytes. The claim that `from_string` and `from_bytes` give the same result is therefore not stated: both reduce to `from_element_tree` on the same tree.
- `GObject.type_from_name` and `.pytype` are a partial map (`Templates.Registry`). An absent name is an unresolved type; `None` is a type without a Python type. The Python type is represented by its name.
- `set_template`, `set_template_scope` and the Gtk version check are not modelled. `bind_template_child_full` is a recorded call. `get_template_child` is a map from ids to built children; an absent id reads as None.
- Gio file and resource loading, `validate_resource_path` and the UTF-8 encoding of a template string are not modelled. Reading a source and parsing its XML is a function parameter (`document`), and `os.path.isfile` is a set of existing paths (`files`).
- `caseconverter` is left abstract. The three converters are function parameters. The set of names is given as a sequence in some order, because Python leaves set iteration order unspecified.
- `sys.modules` and `os.path.split`/`splitext` are not modelled. The module's directory and base name are given as constants of the class.
- Python metaprogramming is replaced by an explicit field-schema table. This covers `ElementMeta.__getattr__`, the `dataclass`/`field` wrappers, the `GObjectMeta` fallback, `__call__` and `__gtype_name__` defaulting. The `default_factory` branch of `BaseElement.__init__` cannot be reached: its `default is MISSING` test compares against the module's own sentinel. So the model always uses the default.
- Element records are values. `bind_child` writes the key back into `element.name`; in the model, the renamed copy is stored in the bound widgets but not in `template.children`, which is the same object in the source.
- Elements.ElementClass.InitSubclass: a subclass that inherits a parent's `__template_tags__` list extends the parent's list in place. Each model class owns its list, so that sharing is not captured.
- Closure construction is modelled only as far as `functools.partial` rejects a non-callable handler with TypeError. The `swap_data` keyword, the `__gtk_template__` marker and the `scope_object` branch are not modelled; that branch always raises NotImplementedError. A closure is the handler with its arguments (`Handlers.Invocation`).
- Logging is a list of warnings. The debug messages for elements without an id are not recorded.
- The builder inside `base_init_template` is a list of closure requests. An error from one request is recorded in `results` and does not stop the others. `self.init_template = lambda: None` is not modelled.
- Meta.Instance.InitTemplate: requires every bound widget name to be a string, as `setattr` demands. It does not model the TypeError `setattr` would raise for other names. Every widget name from a parsed template is a string.
- Handlers.PyObj: tuples and lists are one kind of sequence. A `str` is a sequence of one-character strings. Bytes, other sequence types and objects that are both callable and sequences are not modelled.
- Values are limited to `None`, `bool`, `str` and `MISSING`. A closure's `type` attribute stays a string; it is never resolved to a GType.

## Findings

| source | as written | input that shows it | evidently intended | confidence | as-written member | corrected member |
|---|---|---|---|---|---|---|
| pygobject_templatemeta/meta.py:219-220 | the `Mapping` branch calls `obj_or_map.get(handler, None)` with the element record. The element is an eq-dataclass, so it is unhashable and the lookup raises TypeError on a dict or any mapping whose `get` hashes its key. `do_create_closure` always passes an object, so the branch is reached only by direct callers | a mapping `{"on_click": f}` and a `<signal handler="on_click">` element (`Handlers.MappingLookupFails`) | look the handler up by `handler_name`, as the object branch does | high; not executed | Handlers.ExtractHandlerAndArgsAsWritten | Handlers.ExtractHandlerAndArgs |
