/** The element records of the template parser: the field schema of each
    element class, `get_attributes`, `BaseElement.__init__`, `from_element`,
    `find_elements`, `parse_elements` and `__init_subclass__`. */
module Elements {
  import opened Values
  import opened Dict
  import opened Xml

  /** The four element classes: `SignalElement`, `ClosureElement`,
      `ObjectElement` and `MenuElement`. */
  datatype Kind = Signal | Closure | Object | Menu

  /** A declared dataclass field: its Python name, its `name` metadata (the
      XML attribute, when that differs), its `required` metadata (what
      `get_attr_required` reads) and its default. */
  datatype Field = Field(name: string, xmlName: Option<string>, required: bool, default: Value)

  /** `get_attr_name`: the XML attribute a field is read from. */
  function AttrName(f: Field): string {
    if f.xmlName.Some? && f.xmlName.value != "" then f.xmlName.value else f.name
  }

  ghost predicate DistinctNames(fs: seq<Field>) {
    forall i, j :: 0 <= i < j < |fs| ==> fs[i].name != fs[j].name
  }

  /** The fields of each element class, in declaration order. A required
      field has no default in the source; the one written here is never read. */
  function Schema(k: Kind): (fs: seq<Field>)
    ensures DistinctNames(fs)
    ensures forall i :: 0 <= i < |fs| ==> fs[i].default != MissingValue
  {
    match k
    case Signal => [Field("name", None, true, NoneValue),
                    Field("handler", None, true, NoneValue),
                    Field("object", None, false, NoneValue),
                    Field("swapped", None, false, BoolValue(false)),
                    Field("after", None, false, BoolValue(false))]
    case Closure => [Field("function", None, true, NoneValue),
                     Field("type_", Some("type"), true, NoneValue)]
    case Object => [Field("type_name", Some("class"), true, NoneValue),
                    Field("id_", Some("id"), false, NoneValue),
                    Field("name", None, false, NoneValue),
                    Field("internal", None, false, BoolValue(false))]
    case Menu => [Field("id_", Some("id"), false, NoneValue),
                  Field("domain", None, false, NoneValue)]
  }

  /** The XML attribute behind each renamed field: `class` for
      `type_name`, `id` for `id_`, `type` for `type_`; every other field
      is read from the attribute of its own name. */
  lemma XmlNames()
    ensures AttrName(Schema(Object)[0]) == "class" && Schema(Object)[0].name == "type_name"
    ensures AttrName(Schema(Object)[1]) == "id" && Schema(Object)[1].name == "id_"
    ensures AttrName(Schema(Menu)[0]) == "id" && Schema(Menu)[0].name == "id_"
    ensures AttrName(Schema(Closure)[1]) == "type" && Schema(Closure)[1].name == "type_"
    ensures forall k, f :: f in Schema(k) && f.xmlName.None? ==> AttrName(f) == f.name
  {
  }

  /** `__dataclass_fields__[name]`, when the class declares that field. */
  function FieldNamed(fs: seq<Field>, name: string): (r: Option<Field>)
    ensures r.Some? <==> exists i :: 0 <= i < |fs| && fs[i].name == name
    ensures r.Some? ==> r.value in fs && r.value.name == name
  {
    if fs == [] then None
    else if fs[0].name == name then Some(fs[0])
    else FieldNamed(fs[1..], name)
  }

  lemma {:induction false} FieldNamedDistinct(fs: seq<Field>, i: nat)
    requires DistinctNames(fs) && i < |fs|
    ensures FieldNamed(fs, fs[i].name) == Some(fs[i])
  {
    if i > 0 {
      assert fs[0].name != fs[i].name;
      assert DistinctNames(fs[1..]) by {
        forall a, b | 0 <= a < b < |fs| - 1 ensures fs[1..][a].name != fs[1..][b].name {
          assert fs[1..][a] == fs[a + 1] && fs[1..][b] == fs[b + 1];
        }
      }
      FieldNamedDistinct(fs[1..], i - 1);
    }
  }

  // ---------------------------------------------------------------------
  // get_attributes

  /** What `get_attributes` stores for field `f` of `node`: the attribute's
      text if present, else the field's default; `None` stands for the
      AttributeError of a required field whose attribute is absent. */
  function Lookup(f: Field, node: Node): Option<Value> {
    var v := Get(node, AttrName(f), MissingValue);
    if v != MissingValue then Some(v)
    else if f.required then None
    else Some(f.default)
  }

  /** The Python names of `fs`, in order. */
  function Names(fs: seq<Field>): seq<string> {
    seq(|fs|, i requires 0 <= i < |fs| => fs[i].name)
  }

  /** The attribute dict `get_attributes` builds for the fields `fs`, taken
      in order, or the AttributeError of the first required field whose
      attribute is absent. */
  function AttributesOf(fs: seq<Field>, node: Node): Result<ODict<string, Value>>
    decreases |fs|
  {
    if fs == [] then Ok(Empty())
    else
      match AttributesOf(fs[..|fs| - 1], node)
      case Err(e) => Err(e)
      case Ok(d) =>
        match Lookup(fs[|fs| - 1], node)
        case None => Err(AttributeError(AttrName(fs[|fs| - 1])))
        case Some(v) => Ok(Put(d, fs[|fs| - 1].name, v))
  }

  /** A dict `get_attributes` returns is keyed by the Python names of the
      fields, once each, in declaration order. */
  lemma {:induction false} AttributesOfKeys(fs: seq<Field>, node: Node)
    requires DistinctNames(fs)
    ensures AttributesOf(fs, node).Ok? ==>
              Valid(AttributesOf(fs, node).value) && AttributesOf(fs, node).value.keys == Names(fs)
    decreases |fs|
  {
    if fs != [] && AttributesOf(fs, node).Ok? {
      var n := |fs| - 1;
      var init := fs[..n];
      assert DistinctNames(init) by {
        assert forall i :: 0 <= i < n ==> init[i] == fs[i];
      }
      AttributesOfKeys(init, node);
      var d := AttributesOf(init, node).value;
      var f := fs[n];
      assert f.name !in d.keys by {
        assert forall i :: 0 <= i < n ==> d.keys[i] == fs[i].name;
      }
      PutValid(d, f.name, Lookup(f, node).value);
      assert Names(init) + [f.name] == Names(fs);
    }
  }

  /** When every field resolves, `get_attributes` succeeds and stores under
      each field's Python name the attribute's text or the field's default. */
  lemma {:induction false} AttributesOfOk(fs: seq<Field>, node: Node)
    requires DistinctNames(fs)
    requires forall i :: 0 <= i < |fs| ==> Lookup(fs[i], node).Some?
    ensures AttributesOf(fs, node).Ok?
    ensures forall i :: 0 <= i < |fs| ==>
              && fs[i].name in AttributesOf(fs, node).value.items
              && AttributesOf(fs, node).value.items[fs[i].name] == Lookup(fs[i], node).value
    decreases |fs|
  {
    if fs != [] {
      var n := |fs| - 1;
      var init := fs[..n];
      assert forall i :: 0 <= i < n ==> init[i] == fs[i];
      AttributesOfOk(init, node);
      var d := AttributesOf(init, node).value;
      var f := fs[n];
      var r := Put(d, f.name, Lookup(f, node).value);
      assert AttributesOf(fs, node) == Ok(r);
      forall i | 0 <= i < n ensures r.items[fs[i].name] == Lookup(fs[i], node).value {
        assert fs[i].name != f.name;
        assert d.items[init[i].name] == Lookup(init[i], node).value;
      }
    }
  }

  /** When field `i` is the first that does not resolve, `get_attributes`
      raises AttributeError naming its XML attribute. */
  lemma {:induction false} AttributesOfErr(fs: seq<Field>, node: Node, i: nat)
    requires DistinctNames(fs)
    requires i < |fs| && Lookup(fs[i], node).None?
    requires forall j :: 0 <= j < i ==> Lookup(fs[j], node).Some?
    ensures AttributesOf(fs, node) == Err(AttributeError(AttrName(fs[i])))
    decreases |fs|
  {
    var n := |fs| - 1;
    var init := fs[..n];
    assert forall j :: 0 <= j < n ==> init[j] == fs[j];
    if i == n {
      AttributesOfOk(init, node);
    } else {
      AttributesOfErr(init, node, i);
    }
  }

  /** `cls.get_attributes(element)`. */
  function Attributes(k: Kind, node: Node): Result<ODict<string, Value>> {
    AttributesOf(Schema(k), node)
  }

  /** `get_attributes`, the loop over the declared fields. */
  method GetAttributes(k: Kind, node: Node) returns (r: Result<ODict<string, Value>>)
    ensures r == Attributes(k, node)
  {
    var fs := Schema(k);
    var attributes := Empty();
    for i := 0 to |fs|
      invariant forall j :: 0 <= j < i ==> Lookup(fs[j], node).Some?
      invariant AttributesOf(fs[..i], node) == Ok(attributes)
    {
      var f := fs[i];
      var value := Get(node, AttrName(f), MissingValue);
      if value == MissingValue {
        if f.required {
          AttributesOfErr(fs, node, i);
          return Err(AttributeError(AttrName(f)));
        }
        value := f.default;
      }
      assert fs[..i + 1][..i] == fs[..i];
      attributes := Put(attributes, f.name, value);
    }
    assert fs[..|fs|] == fs;
    return Ok(attributes);
  }

  // ---------------------------------------------------------------------
  // BaseElement.__init__

  /** Whether `__init__` refuses attribute `name` with value `v`: it names a
      required field and the value is `MISSING`. */
  predicate Rejects(fs: seq<Field>, name: string, v: Value) {
    var f := FieldNamed(fs, name);
    f.Some? && f.value.required && v == MissingValue
  }

  /** The value `__init__` sets on a declared field: the one given, or the
      field's default in place of `MISSING`. (The source's `default is
      MISSING` test compares a dataclass default with the module's own
      sentinel, which never holds, so its `default_factory` branch is never
      taken.) */
  function Supplied(f: Field, v: Value): Value {
    if v == MissingValue then f.default else v
  }

  /** The fields `__init__` sets from the attributes `names` (in order) with
      values `given`, or the AttributeError of the first rejected one.
      Undeclared names are skipped. */
  function InitFields(fs: seq<Field>, names: seq<string>, given: map<string, Value>): Result<map<string, Value>>
    requires forall n :: n in names ==> n in given
    decreases |names|
  {
    if names == [] then Ok(map[])
    else
      var n := names[|names| - 1];
      match InitFields(fs, names[..|names| - 1], given)
      case Err(e) => Err(e)
      case Ok(fields) =>
        match FieldNamed(fs, n)
        case None => Ok(fields)
        case Some(f) =>
          if f.required && given[n] == MissingValue then Err(AttributeError(AttrName(f)))
          else Ok(fields[n := Supplied(f, given[n])])
  }

  /** When no attribute is refused, `__init__` sets exactly the declared
      fields among the given names, each to its given value or default. */
  lemma {:induction false} InitFieldsOk(fs: seq<Field>, names: seq<string>, given: map<string, Value>)
    requires forall n :: n in names ==> n in given
    requires forall i :: 0 <= i < |names| ==> !Rejects(fs, names[i], given[names[i]])
    ensures InitFields(fs, names, given).Ok?
    ensures forall i :: 0 <= i < |names| && FieldNamed(fs, names[i]).Some? ==>
              names[i] in InitFields(fs, names, given).value
    ensures forall n :: n in InitFields(fs, names, given).value ==>
              && n in names
              && FieldNamed(fs, n).Some?
              && InitFields(fs, names, given).value[n] == Supplied(FieldNamed(fs, n).value, given[n])
    decreases |names|
  {
    if names != [] {
      var m := |names| - 1;
      var init := names[..m];
      assert forall i :: 0 <= i < m ==> init[i] == names[i];
      assert forall n :: n in init ==> n in names;
      InitFieldsOk(fs, init, given);
      assert !Rejects(fs, names[m], given[names[m]]);
    }
  }

  /** When attribute `i` is the first refused, `__init__` raises
      AttributeError naming that field's XML attribute. */
  lemma {:induction false} InitFieldsErr(fs: seq<Field>, names: seq<string>, given: map<string, Value>, i: nat)
    requires forall n :: n in names ==> n in given
    requires i < |names| && Rejects(fs, names[i], given[names[i]])
    requires forall j :: 0 <= j < i ==> !Rejects(fs, names[j], given[names[j]])
    ensures InitFields(fs, names, given) == Err(AttributeError(AttrName(FieldNamed(fs, names[i]).value)))
    decreases |names|
  {
    var m := |names| - 1;
    var init := names[..m];
    assert forall j :: 0 <= j < m ==> init[j] == names[j];
    assert forall n :: n in init ==> n in names;
    if i == m {
      InitFieldsOk(fs, init, given);
    } else {
      InitFieldsErr(fs, init, given, i);
    }
  }

  /** An element record: its class, the fields `__init__` set on it, and
      the XML element it was built from. */
  datatype Element = Element(kind: Kind, fields: map<string, Value>, node: Node)

  /** `BaseElement.__init__(attributes, element)` on a fresh instance of
      class `k`. */
  function Construct(k: Kind, attributes: ODict<string, Value>, node: Node): Result<Element>
    requires Valid(attributes)
  {
    match InitFields(Schema(k), attributes.keys, attributes.items)
    case Err(e) => Err(e)
    case Ok(fields) => Ok(Element(k, fields, node))
  }

  /** A fold whose prefix before attribute `i` succeeds fails at `i` when
      that attribute is rejected. */
  lemma {:induction false} InitFieldsStops(fs: seq<Field>, names: seq<string>, given: map<string, Value>, i: nat)
    requires forall n :: n in names ==> n in given
    requires i < |names| && Rejects(fs, names[i], given[names[i]])
    requires InitFields(fs, names[..i], given).Ok?
    ensures InitFields(fs, names, given) == Err(AttributeError(AttrName(FieldNamed(fs, names[i]).value)))
    decreases |names|
  {
    var m := |names| - 1;
    assert forall n :: n in names[..m] ==> n in names;
    if i == m {
      assert names[..m] == names[..i];
    } else {
      assert names[..m][..i] == names[..i];
      InitFieldsStops(fs, names[..m], given, i);
    }
  }

  /** One more attribute for `InitFields`: skipped when undeclared, the
      error when rejected, otherwise its field set. */
  lemma InitFieldsStep(fs: seq<Field>, names: seq<string>, given: map<string, Value>, i: nat, fields: map<string, Value>)
    requires forall n :: n in names ==> n in given
    requires i < |names| && InitFields(fs, names[..i], given) == Ok(fields)
    ensures FieldNamed(fs, names[i]).None? ==> InitFields(fs, names[..i + 1], given) == Ok(fields)
    ensures Rejects(fs, names[i], given[names[i]]) ==>
              InitFields(fs, names, given) == Err(AttributeError(AttrName(FieldNamed(fs, names[i]).value)))
    ensures FieldNamed(fs, names[i]).Some? && !Rejects(fs, names[i], given[names[i]]) ==>
              InitFields(fs, names[..i + 1], given)
              == Ok(fields[names[i] := Supplied(FieldNamed(fs, names[i]).value, given[names[i]])])
  {
    assert names[..i + 1][..i] == names[..i];
    assert forall n :: n in names[..i + 1] ==> n in names;
    if Rejects(fs, names[i], given[names[i]]) {
      InitFieldsStops(fs, names, given, i);
    }
  }

  /** The loop of `BaseElement.__init__` over the attributes, for the fields
      `fs` of the class. */
  method SetFields(fs: seq<Field>, attributes: ODict<string, Value>) returns (r: Result<map<string, Value>>)
    requires Valid(attributes)
    ensures r == InitFields(fs, attributes.keys, attributes.items)
  {
    var names := attributes.keys;
    var fields := map[];
    for i := 0 to |names|
      invariant InitFields(fs, names[..i], attributes.items) == Ok(fields)
    {
      var name := names[i];
      var value := attributes.items[name];
      var f := FieldNamed(fs, name);
      InitFieldsStep(fs, names, attributes.items, i, fields);
      if f.None? {
        // an unknown attribute: the source logs a warning and skips it
        continue;
      }
      if f.value.required && value == MissingValue {
        return Err(AttributeError(AttrName(f.value)));
      } else if value == MissingValue {
        value := f.value.default;
      }
      fields := fields[name := value];
    }
    assert names[..|names|] == names;
    return Ok(fields);
  }

  /** `BaseElement.__init__` on a fresh instance of class `k`. */
  method InitElement(k: Kind, attributes: ODict<string, Value>, node: Node) returns (r: Result<Element>)
    requires Valid(attributes)
    ensures r == Construct(k, attributes, node)
  {
    var fields := SetFields(Schema(k), attributes);
    if fields.Err? {
      return Err(fields.error);
    }
    return Ok(Element(k, fields.value, node));
  }

  // ---------------------------------------------------------------------
  // from_element

  /** `cls.from_element(element)`: `get_attributes`, then the constructor. */
  function ElementOf(k: Kind, node: Node): Result<Element> {
    match Attributes(k, node)
    case Err(e) => Err(e)
    case Ok(a) =>
      AttributesOfKeys(Schema(k), node);
      Construct(k, a, node)
  }

  /** The `name` attribute of an element record: a menu's `name` property
      reads its `id_`; the other classes read their own field. */
  function Name(e: Element): Value {
    if e.kind == Menu then KeyOf(e, "id_") else KeyOf(e, "name")
  }

  /** Field `i` is the first of `fs` that does not resolve on `node`. */
  ghost predicate FirstUnresolved(fs: seq<Field>, node: Node, i: int) {
    && 0 <= i < |fs|
    && Lookup(fs[i], node).None?
    && forall j :: 0 <= j < i ==> Lookup(fs[j], node).Some?
  }

  lemma {:induction false} FirstUnresolvedExists(fs: seq<Field>, node: Node, i: nat)
    requires i < |fs| && Lookup(fs[i], node).None?
    ensures exists j :: FirstUnresolved(fs, node, j)
    decreases i
  {
    if j :| 0 <= j < i && Lookup(fs[j], node).None? {
      FirstUnresolvedExists(fs, node, j);
    } else {
      assert FirstUnresolved(fs, node, i);
    }
  }

  /** The constructor accepts what `get_attributes` returns (every value is
      an attribute's text or a default, never `MISSING`) and sets every
      field to it. */
  lemma ConstructAttributes(fs: seq<Field>, node: Node)
    requires DistinctNames(fs)
    requires forall i :: 0 <= i < |fs| ==> Lookup(fs[i], node).Some? && fs[i].default != MissingValue
    ensures AttributesOf(fs, node).Ok? && Valid(AttributesOf(fs, node).value)
    ensures InitFields(fs, AttributesOf(fs, node).value.keys, AttributesOf(fs, node).value.items).Ok?
    ensures forall n :: n in InitFields(fs, AttributesOf(fs, node).value.keys, AttributesOf(fs, node).value.items).value
              ==> FieldNamed(fs, n).Some?
    ensures forall i :: 0 <= i < |fs| ==>
              && fs[i].name in InitFields(fs, AttributesOf(fs, node).value.keys, AttributesOf(fs, node).value.items).value
              && InitFields(fs, AttributesOf(fs, node).value.keys, AttributesOf(fs, node).value.items).value[fs[i].name]
                 == Lookup(fs[i], node).value
  {
    AttributesOfOk(fs, node);
    AttributesOfKeys(fs, node);
    var a := AttributesOf(fs, node).value;
    forall i | 0 <= i < |a.keys| ensures FieldNamed(fs, a.keys[i]) == Some(fs[i]) {
      FieldNamedDistinct(fs, i);
    }
    forall i | 0 <= i < |a.keys| ensures !Rejects(fs, a.keys[i], a.items[a.keys[i]]) {
      assert a.items[a.keys[i]] == Lookup(fs[i], node).value;
    }
    InitFieldsOk(fs, a.keys, a.items);
    var fields := InitFields(fs, a.keys, a.items).value;
    forall i | 0 <= i < |fs|
      ensures fs[i].name in fields && fields[fs[i].name] == Lookup(fs[i], node).value
    {
      assert a.keys[i] == fs[i].name;
      assert FieldNamed(fs, a.keys[i]) == Some(fs[i]);
    }
  }

  /** `from_element` fails exactly when some required attribute is absent,
      with the AttributeError of the first such field; otherwise the record
      has every declared field and no other, each set to the attribute's
      text or the field's default. */
  lemma ElementOfSpec(k: Kind, node: Node)
    ensures ElementOf(k, node).Ok? <==> forall i :: 0 <= i < |Schema(k)| ==> Lookup(Schema(k)[i], node).Some?
    ensures ElementOf(k, node).Err? ==>
              exists i :: (FirstUnresolved(Schema(k), node, i)
                           && ElementOf(k, node).error == AttributeError(AttrName(Schema(k)[i])))
    ensures ElementOf(k, node).Ok? ==>
              && ElementOf(k, node).value.kind == k
              && ElementOf(k, node).value.node == node
              && (forall n :: n in ElementOf(k, node).value.fields ==> FieldNamed(Schema(k), n).Some?)
              && forall i :: 0 <= i < |Schema(k)| ==>
                   && Schema(k)[i].name in ElementOf(k, node).value.fields
                   && ElementOf(k, node).value.fields[Schema(k)[i].name] == Lookup(Schema(k)[i], node).value
  {
    var fs := Schema(k);
    if i :| 0 <= i < |fs| && Lookup(fs[i], node).None? {
      FirstUnresolvedExists(fs, node, i);
      var j :| FirstUnresolved(fs, node, j);
      AttributesOfErr(fs, node, j);
    } else {
      ConstructAttributes(fs, node);
    }
  }

  /** `from_element` succeeds exactly when every required attribute is
      present. */
  lemma ElementOk(k: Kind, node: Node)
    ensures ElementOf(k, node).Ok? <==>
              forall i :: 0 <= i < |Schema(k)| && Schema(k)[i].required ==> AttrName(Schema(k)[i]) in node.attrs
    ensures ElementOf(k, node).Ok? ==> ElementOf(k, node).value.kind == k && ElementOf(k, node).value.node == node
  {
    ElementOfSpec(k, node);
  }

  /** Field `i` of a record `from_element` built holds the attribute's text,
      or the field's default when the attribute is absent. */
  lemma ElementField(k: Kind, node: Node, i: nat)
    requires i < |Schema(k)| && ElementOf(k, node).Ok?
    ensures Schema(k)[i].name in ElementOf(k, node).value.fields
    ensures ElementOf(k, node).value.fields[Schema(k)[i].name] == Get(node, AttrName(Schema(k)[i]), Schema(k)[i].default)
  {
    ElementOfSpec(k, node);
  }

  /** `from_element`: `get_attributes` followed by the constructor. */
  method FromElement(k: Kind, node: Node) returns (r: Result<Element>)
    ensures r == ElementOf(k, node)
  {
    var attributes := GetAttributes(k, node);
    if attributes.Err? {
      return Err(attributes.error);
    }
    AttributesOfKeys(Schema(k), node);
    r := InitElement(k, attributes.value, node);
  }

  // ---------------------------------------------------------------------
  // __init_subclass__ and find_elements

  /** The `tag=` keyword of an element class statement. */
  datatype TagArg = NoTag | OneTag(tag: string) | TagList(tags: seq<string>)

  /** The tags each element class declares. */
  function TemplateTags(k: Kind): seq<string> {
    match k
    case Signal => ["signal"]
    case Closure => ["closure"]
    case Object => ["object"]
    case Menu => ["menu", "submenu", "section"]
  }

  /** An element class, as far as its `__template_tags__` list goes. A class
      that has no such list is represented by the empty list, which
      `find_elements` treats the same way. */
  class ElementClass {
    var templateTags: seq<string>

    constructor ()
      ensures templateTags == []
    {
      templateTags := [];
    }

    /** `__init_subclass__(tag=...)`: a falsy tag changes nothing; a string
        is appended as one tag; a list is appended element by element. */
    method InitSubclass(tag: TagArg)
      modifies this
      ensures tag.NoTag? ==> templateTags == old(templateTags)
      ensures tag.OneTag? ==> templateTags == old(templateTags) + (if tag.tag == "" then [] else [tag.tag])
      ensures tag.TagList? ==> templateTags == old(templateTags) + tag.tags
    {
      if tag.NoTag? || (tag.OneTag? && tag.tag == "") || (tag.TagList? && tag.tags == []) {
        return;
      }
      var tags := if tag.OneTag? then [tag.tag] else tag.tags;
      templateTags := templateTags + tags;
    }
  }

  /** The class statements of the four element classes. */
  method DeclareElementClass(k: Kind) returns (c: ElementClass)
    ensures fresh(c) && c.templateTags == TemplateTags(k)
  {
    c := new ElementClass();
    match k
    case Signal => c.InitSubclass(OneTag("signal"));
    case Closure => c.InitSubclass(OneTag("closure"));
    case Object => c.InitSubclass(OneTag("object"));
    case Menu => c.InitSubclass(TagList(["menu", "submenu", "section"]));
  }

  /** `find_elements`: for each tag in turn, every descendant with that tag
      in document order. */
  function FindElements(tags: seq<string>, tree: Node): seq<Node> {
    if tags == [] then [] else FindAll(tree, tags[0]) + FindElements(tags[1..], tree)
  }

  /** `find_elements` returns exactly the descendants whose tag is declared. */
  lemma {:induction false} FindElementsMembers(tags: seq<string>, tree: Node)
    ensures forall m :: m in FindElements(tags, tree) <==> m in Descendants(tree) && m.tag in tags
  {
    if tags != [] {
      FindElementsMembers(tags[1..], tree);
      WithTagMembers(Descendants(tree), tags[0]);
      assert forall t :: t in tags <==> t == tags[0] || t in tags[1..];
    }
  }

  /** Within one declared tag, `find_elements` keeps exactly that tag's
      matches in document order: filtering its result by a tag gives back
      `findall` for that tag. */
  lemma {:induction false} FindElementsByTag(tags: seq<string>, tree: Node, t: string)
    requires forall i, j :: 0 <= i < j < |tags| ==> tags[i] != tags[j]
    ensures WithTag(FindElements(tags, tree), t) == if t in tags then FindAll(tree, t) else []
  {
    if tags != [] {
      WithTagConcat(FindAll(tree, tags[0]), FindElements(tags[1..], tree), t);
      WithTagOf(Descendants(tree), tags[0], t);
      assert forall i, j :: 0 <= i < j < |tags[1..]| ==> tags[1..][i] != tags[1..][j] by {
        forall i, j | 0 <= i < j < |tags[1..]| ensures tags[1..][i] != tags[1..][j] {
          assert tags[1..][i] == tags[i + 1] && tags[1..][j] == tags[j + 1];
        }
      }
      FindElementsByTag(tags[1..], tree, t);
      assert t in tags <==> t == tags[0] || t in tags[1..];
      if t == tags[0] {
        assert t !in tags[1..] by {
          forall i | 0 <= i < |tags[1..]| ensures tags[1..][i] != t {
            assert tags[1..][i] == tags[i + 1];
          }
        }
      }
    }
  }

  /** Menus are searched as `menu`, then `submenu`, then `section`. */
  lemma MenuSearchOrder(tree: Node)
    ensures FindElements(TemplateTags(Menu), tree)
              == FindAll(tree, "menu") + FindAll(tree, "submenu") + FindAll(tree, "section")
  {
    var tags := TemplateTags(Menu);
    assert tags[1..] == ["submenu", "section"] && tags[1..][1..] == ["section"] && tags[1..][1..][1..] == [];
    assert FindElements(["section"], tree) == FindAll(tree, "section") + FindElements([], tree);
    assert FindElements(["submenu", "section"], tree) == FindAll(tree, "submenu") + FindElements(["section"], tree);
  }

  // ---------------------------------------------------------------------
  // parse_elements

  /** `f` applied to each item in turn, stopping at the first error. */
  function Traverse<A, B>(f: A -> Result<B>, xs: seq<A>): Result<seq<B>>
    decreases |xs|
  {
    if xs == [] then Ok([])
    else
      match Traverse(f, xs[..|xs| - 1])
      case Err(e) => Err(e)
      case Ok(ys) =>
        match f(xs[|xs| - 1])
        case Err(e) => Err(e)
        case Ok(y) => Ok(ys + [y])
  }

  /** The traversal succeeds exactly when `f` succeeds on every item, and
      then holds the results in item order. */
  lemma {:induction false} TraverseOk<A, B>(f: A -> Result<B>, xs: seq<A>)
    ensures Traverse(f, xs).Ok? <==> forall i :: 0 <= i < |xs| ==> f(xs[i]).Ok?
    ensures Traverse(f, xs).Ok? ==>
              && |Traverse(f, xs).value| == |xs|
              && forall i :: 0 <= i < |xs| ==> Traverse(f, xs).value[i] == f(xs[i]).value
    decreases |xs|
  {
    if xs != [] {
      var m := |xs| - 1;
      assert forall i :: 0 <= i < m ==> xs[..m][i] == xs[i];
      TraverseOk(f, xs[..m]);
    }
  }

  /** When item `i` is the first on which `f` fails, the traversal fails
      with that error. */
  lemma {:induction false} TraverseErr<A, B>(f: A -> Result<B>, xs: seq<A>, i: nat)
    requires i < |xs| && f(xs[i]).Err?
    requires forall j :: 0 <= j < i ==> f(xs[j]).Ok?
    ensures Traverse(f, xs) == Err(f(xs[i]).error)
    decreases |xs|
  {
    var m := |xs| - 1;
    assert forall j :: 0 <= j < m ==> xs[..m][j] == xs[j];
    if i == m {
      TraverseOk(f, xs[..m]);
    } else {
      TraverseErr(f, xs[..m], i);
    }
  }

  /** A traversal whose prefix before item `i` succeeds fails at `i` when
      `f` fails there. */
  lemma {:induction false} TraverseStops<A, B>(f: A -> Result<B>, xs: seq<A>, i: nat)
    requires i < |xs| && Traverse(f, xs[..i]).Ok? && f(xs[i]).Err?
    ensures Traverse(f, xs) == Err(f(xs[i]).error)
    decreases |xs|
  {
    var m := |xs| - 1;
    if i == m {
      assert xs[..m] == xs[..i];
    } else {
      assert xs[..m][..i] == xs[..i];
      TraverseStops(f, xs[..m], i);
    }
  }

  /** `from_element` on each node in turn, stopping at the first error. */
  function Build(k: Kind, nodes: seq<Node>): Result<seq<Element>> {
    Traverse(n => ElementOf(k, n), nodes)
  }

  /** The value of field `key` of an element; `None` if it has no such field. */
  function KeyOf(e: Element, key: string): Value {
    if key in e.fields then e.fields[key] else NoneValue
  }

  /** The keys of `es`, in order. */
  function KeysOf(es: seq<Element>, key: string): seq<Value> {
    seq(|es|, i requires 0 <= i < |es| => KeyOf(es[i], key))
  }

  /** The dict `parse_elements` fills: each element stored under its key,
      elements whose key is `None` skipped. */
  function Collect(es: seq<Element>, key: string): ODict<Value, Element>
    decreases |es|
  {
    if es == [] then Empty()
    else
      var d := Collect(es[..|es| - 1], key);
      var v := KeyOf(es[|es| - 1], key);
      if v == NoneValue then d else Put(d, v, es[|es| - 1])
  }

  /** The dict is well formed, its keys are exactly the non-None keys of the
      elements, and each key holds an element carrying that key. */
  lemma {:induction false} CollectKeys(es: seq<Element>, key: string)
    ensures Valid(Collect(es, key))
    ensures forall v :: v in Collect(es, key).items <==> v != NoneValue && v in KeysOf(es, key)
    ensures forall v :: v in Collect(es, key).items ==>
              Collect(es, key).items[v] in es && KeyOf(Collect(es, key).items[v], key) == v
    decreases |es|
  {
    if es == [] {
      EmptyValid<Value, Element>();
    } else {
      var m := |es| - 1;
      CollectKeys(es[..m], key);
      assert KeysOf(es, key) == KeysOf(es[..m], key) + [KeyOf(es[m], key)];
      var v := KeyOf(es[m], key);
      if v != NoneValue {
        PutValid(Collect(es[..m], key), v, es[m]);
      }
      forall e | e in es[..m] ensures e in es { }
    }
  }

  /** On a repeated key the later element wins: the last element carrying a
      key is the one stored under it. */
  lemma {:induction false} CollectLastWins(es: seq<Element>, key: string, i: nat)
    requires i < |es| && KeyOf(es[i], key) != NoneValue
    requires forall j :: i < j < |es| ==> KeyOf(es[j], key) != KeyOf(es[i], key)
    ensures KeyOf(es[i], key) in Collect(es, key).items
    ensures Collect(es, key).items[KeyOf(es[i], key)] == es[i]
    decreases |es|
  {
    var m := |es| - 1;
    if i < m {
      assert forall j :: i < j < m ==> es[..m][j] == es[j];
      CollectLastWins(es[..m], key, i);
    }
  }

  /** `cls.parse_elements(tree, key)`. */
  function ParsedElements(k: Kind, tree: Node, key: string): Result<ODict<Value, Element>> {
    match Build(k, FindElements(TemplateTags(k), tree))
    case Err(e) => Err(e)
    case Ok(es) => Ok(Collect(es, key))
  }

  /** Collecting the elements `f` builds from `nodes`: the keys are exactly
      the non-None keys of those elements. */
  lemma CollectTraverseKeys(f: Node -> Result<Element>, nodes: seq<Node>, key: string)
    requires Traverse(f, nodes).Ok?
    ensures forall v :: v in Collect(Traverse(f, nodes).value, key).items <==>
              (v != NoneValue && exists n :: n in nodes && f(n).Ok? && KeyOf(f(n).value, key) == v)
  {
    TraverseOk(f, nodes);
    var es := Traverse(f, nodes).value;
    CollectKeys(es, key);
    var d := Collect(es, key);
    forall v ensures v in d.items <==> (v != NoneValue && exists n :: n in nodes && f(n).Ok? && KeyOf(f(n).value, key) == v) {
      if v in d.items {
        var i :| 0 <= i < |es| && KeysOf(es, key)[i] == v;
        assert nodes[i] in nodes && KeyOf(f(nodes[i]).value, key) == v;
      }
      if v != NoneValue && exists n :: n in nodes && f(n).Ok? && KeyOf(f(n).value, key) == v {
        var n :| n in nodes && f(n).Ok? && KeyOf(f(n).value, key) == v;
        var i :| 0 <= i < |nodes| && nodes[i] == n;
        assert KeysOf(es, key)[i] == v;
      }
    }
  }

  /** Collecting the elements `f` builds from `nodes`: each entry is the
      element built from one of the nodes and carries its key. */
  lemma CollectTraverseEntries(f: Node -> Result<Element>, nodes: seq<Node>, key: string)
    requires Traverse(f, nodes).Ok?
    ensures forall v :: v in Collect(Traverse(f, nodes).value, key).items ==>
              && KeyOf(Collect(Traverse(f, nodes).value, key).items[v], key) == v
              && exists n :: n in nodes && f(n) == Ok(Collect(Traverse(f, nodes).value, key).items[v])
  {
    TraverseOk(f, nodes);
    var es := Traverse(f, nodes).value;
    CollectKeys(es, key);
    var d := Collect(es, key);
    forall v | v in d.items ensures exists n :: n in nodes && f(n) == Ok(d.items[v]) {
      var i :| 0 <= i < |es| && es[i] == d.items[v];
      assert nodes[i] in nodes;
    }
  }

  /** `parse_elements` succeeds exactly when every found element parses. */
  lemma ParsedElementsOk(k: Kind, tree: Node, key: string)
    ensures ParsedElements(k, tree, key).Ok? <==>
              forall n :: n in FindElements(TemplateTags(k), tree) ==> ElementOf(k, n).Ok?
  {
    var nodes := FindElements(TemplateTags(k), tree);
    TraverseOk(n => ElementOf(k, n), nodes);
    if !ParsedElements(k, tree, key).Ok? {
      assert !forall i :: 0 <= i < |nodes| ==> ElementOf(k, nodes[i]).Ok?;
    }
  }

  /** The keys of `parse_elements`' result are exactly the non-None keys of
      the found elements. */
  lemma ParsedElementsKeys(k: Kind, tree: Node, key: string)
    requires ParsedElements(k, tree, key).Ok?
    ensures forall v :: v in ParsedElements(k, tree, key).value.items <==>
              (v != NoneValue && exists n :: n in FindElements(TemplateTags(k), tree) && ElementOf(k, n).Ok? && KeyOf(ElementOf(k, n).value, key) == v)
  {
    var nodes := FindElements(TemplateTags(k), tree);
    var f := n => ElementOf(k, n);
    assert Build(k, nodes) == Traverse(f, nodes);
    CollectTraverseKeys(f, nodes, key);
    assert forall n :: f(n) == ElementOf(k, n);
  }

  /** Each entry of `parse_elements`' result is the element of a found node
      and carries the key it is stored under. */
  lemma ParsedElementsEntries(k: Kind, tree: Node, key: string)
    requires ParsedElements(k, tree, key).Ok?
    ensures forall v :: v in ParsedElements(k, tree, key).value.items ==>
              && KeyOf(ParsedElements(k, tree, key).value.items[v], key) == v
              && exists n :: n in FindElements(TemplateTags(k), tree) && ElementOf(k, n) == Ok(ParsedElements(k, tree, key).value.items[v])
  {
    var nodes := FindElements(TemplateTags(k), tree);
    var f := n => ElementOf(k, n);
    assert Build(k, nodes) == Traverse(f, nodes);
    CollectTraverseEntries(f, nodes, key);
    assert forall n :: f(n) == ElementOf(k, n);
  }

  /** `parse_elements` returns a well-formed dict. */
  lemma ParsedElementsValid(k: Kind, tree: Node, key: string)
    requires ParsedElements(k, tree, key).Ok?
    ensures Valid(ParsedElements(k, tree, key).value)
  {
    CollectKeys(Build(k, FindElements(TemplateTags(k), tree)).value, key);
  }

  /** When the `i`th found element is the first that does not parse,
      `parse_elements` raises its error. */
  lemma ParsedElementsErr(k: Kind, tree: Node, key: string, i: nat)
    requires i < |FindElements(TemplateTags(k), tree)|
    requires ElementOf(k, FindElements(TemplateTags(k), tree)[i]).Err?
    requires forall j :: 0 <= j < i ==> ElementOf(k, FindElements(TemplateTags(k), tree)[j]).Ok?
    ensures ParsedElements(k, tree, key) == Err(ElementOf(k, FindElements(TemplateTags(k), tree)[i]).error)
  {
    TraverseErr(n => ElementOf(k, n), FindElements(TemplateTags(k), tree), i);
  }

  /** One more node for `Build`: the prefix's elements extended by the new
      node's element, or the new node's error for the whole sequence. */
  lemma BuildStep(k: Kind, nodes: seq<Node>, i: nat, es: seq<Element>)
    requires i < |nodes| && Build(k, nodes[..i]) == Ok(es)
    ensures ElementOf(k, nodes[i]).Ok? ==> Build(k, nodes[..i + 1]) == Ok(es + [ElementOf(k, nodes[i]).value])
    ensures ElementOf(k, nodes[i]).Err? ==> Build(k, nodes) == Err(ElementOf(k, nodes[i]).error)
  {
    var f := n => ElementOf(k, n);
    assert nodes[..i + 1][..i] == nodes[..i];
    if f(nodes[i]).Err? {
      TraverseStops(f, nodes, i);
    }
  }

  /** One more element for `Collect`. */
  lemma CollectStep(es: seq<Element>, e: Element, key: string)
    ensures Collect(es + [e], key) ==
              if KeyOf(e, key) == NoneValue then Collect(es, key) else Put(Collect(es, key), KeyOf(e, key), e)
  {
    assert (es + [e])[..|es|] == es;
  }

  /** `parse_elements`: the loop over the found elements. */
  method ParseElements(k: Kind, tree: Node, key: string) returns (r: Result<ODict<Value, Element>>)
    ensures r == ParsedElements(k, tree, key)
  {
    var nodes := FindElements(TemplateTags(k), tree);
    var elements := Empty();
    ghost var built: seq<Element> := [];
    for i := 0 to |nodes|
      invariant Build(k, nodes[..i]) == Ok(built)
      invariant elements == Collect(built, key)
    {
      var obj := FromElement(k, nodes[i]);
      BuildStep(k, nodes, i, built);
      if obj.Err? {
        return Err(obj.error);
      }
      CollectStep(built, obj.value, key);
      built := built + [obj.value];
      var elementKey := KeyOf(obj.value, key);
      if elementKey == NoneValue {
        continue;
      }
      elements := Put(elements, elementKey, obj.value);
    }
    assert nodes[..|nodes|] == nodes;
    return Ok(elements);
  }
}
