/** The document of the template test: an `<interface>` holding a
    `<template>` of class `TemplateTest` with parent `GtkWidget`, a
    `<signal>` and one `<object>` child. Text content is not part of the
    tree model. */
module TemplateSample {
  import opened Values
  import opened Dict
  import opened Xml
  import opened Elements
  import opened Templates

  const ButtonLabel := Node("property", map["name" := "label"], [])
  const Button := Node("object", map["class" := "GtkButton", "id" := "test_button"], [ButtonLabel])
  const Child := Node("child", map[], [Button])
  const NotifySignal := Node("signal", map["name" := "notify", "handler" := "on_test_notify"], [])
  const TemplateNode := Node("template", map["class" := "TemplateTest", "parent" := "GtkWidget"], [NotifySignal, Child])
  const Document := Node("interface", map[], [TemplateNode])

  /** The type system the test runs against: `GtkWidget` resolves to the
      Python type `Gtk.Widget`. */
  const Types: Registry := map["GtkWidget" := Some("Gtk.Widget")]

  lemma DocumentOrder()
    ensures Descendants(Document) == [TemplateNode, NotifySignal, Child, Button, ButtonLabel]
  {
    assert Flatten([]) == [];
    assert Flatten([ButtonLabel]) == [ButtonLabel] + Flatten([]) + Flatten([][..]);
    assert [ButtonLabel][1..] == [];
    assert Flatten([Button]) == [Button] + Flatten([ButtonLabel]) + Flatten([Button][1..]);
    assert [Button][1..] == [];
    assert Flatten([Child]) == [Child] + Flatten([Button]) + Flatten([Child][1..]);
    assert [Child][1..] == [];
    assert [NotifySignal, Child][1..] == [Child];
    assert Flatten([NotifySignal, Child]) == [NotifySignal] + Flatten([]) + Flatten([Child]);
    assert Flatten([TemplateNode]) == [TemplateNode] + Flatten([NotifySignal, Child]) + Flatten([TemplateNode][1..]);
    assert [TemplateNode][1..] == [];
  }

  /** A search over the document visits its five elements in order. */
  lemma SearchByTag(t: string)
    ensures FindAll(Document, t) ==
              WithTag([TemplateNode], t) + WithTag([NotifySignal], t) + WithTag([Child], t)
              + WithTag([Button], t) + WithTag([ButtonLabel], t)
  {
    DocumentOrder();
    assert Descendants(Document) == [TemplateNode] + [NotifySignal] + [Child] + [Button] + [ButtonLabel];
    WithTagConcat([TemplateNode] + [NotifySignal] + [Child] + [Button], [ButtonLabel], t);
    WithTagConcat([TemplateNode] + [NotifySignal] + [Child], [Button], t);
    WithTagConcat([TemplateNode] + [NotifySignal], [Child], t);
    WithTagConcat([TemplateNode], [NotifySignal], t);
  }

  lemma WithTagSingle(n: Node, t: string)
    ensures WithTag([n], t) == if n.tag == t then [n] else []
  {
    assert [n][1..] == [];
  }

  lemma Searches()
    ensures FindAll(Document, "template") == [TemplateNode]
    ensures FindElements(TemplateTags(Signal), Document) == [NotifySignal]
    ensures FindElements(TemplateTags(Closure), Document) == []
    ensures FindElements(TemplateTags(Object), Document) == [Button]
    ensures FindElements(TemplateTags(Menu), Document) == []
  {
    forall n | n in [TemplateNode, NotifySignal, Child, Button, ButtonLabel]
      ensures forall t :: WithTag([n], t) == if n.tag == t then [n] else []
    {
      forall t { WithTagSingle(n, t); }
    }
    SearchByTag("template");
    SearchByTag("signal");
    SearchByTag("closure");
    SearchByTag("object");
    SearchByTag("menu");
    SearchByTag("submenu");
    SearchByTag("section");
    MenuSearchOrder(Document);
  }

  /** A table of a single found element. */
  lemma SingleTable(k: Kind, n: Node, key: string)
    requires FindElements(TemplateTags(k), Document) == [n] && ElementOf(k, n).Ok?
    ensures ParsedElements(k, Document, key).Ok?
    ensures ParsedElements(k, Document, key).value == Collect([ElementOf(k, n).value], key)
  {
    TraverseOk(m => ElementOf(k, m), [n]);
  }

  lemma SampleSignals()
    ensures ParsedElements(Signal, Document, "handler").Ok?
    ensures ParsedElements(Signal, Document, "handler").value.keys == [StrValue("on_test_notify")]
  {
    Searches();
    ElementOk(Signal, NotifySignal);
    ElementField(Signal, NotifySignal, 1);
    SingleTable(Signal, NotifySignal, "handler");
  }

  lemma SampleChildren()
    ensures ParsedElements(Object, Document, "id_").Ok?
    ensures ParsedElements(Object, Document, "id_").value.keys == [StrValue("test_button")]
    ensures ElementOf(Object, Button).Ok?
    ensures ParsedElements(Object, Document, "id_").value.items == map[StrValue("test_button") := ElementOf(Object, Button).value]
  {
    Searches();
    ObjectRecord(Button);
    SingleTable(Object, Button, "id_");
  }

  lemma SampleOthers()
    ensures ParsedElements(Closure, Document, "function").Ok?
    ensures ParsedElements(Menu, Document, "id_").Ok?
  {
    Searches();
  }

  /** The template test: class name `TemplateTest`, parent type
      `Gtk.Widget`, exactly one child `test_button` of class `GtkButton`,
      and the signal keyed by its handler. */
  lemma SampleTemplate()
    ensures FromElementTree(Document, Types).Ok?
    ensures FromElementTree(Document, Types).value.className == "TemplateTest"
    ensures FromElementTree(Document, Types).value.parentType == "Gtk.Widget"
    ensures FromElementTree(Document, Types).value.children.keys == [StrValue("test_button")]
    ensures StrValue("test_button") in FromElementTree(Document, Types).value.children.items
    ensures KeyOf(FromElementTree(Document, Types).value.children.items[StrValue("test_button")], "type_name")
            == StrValue("GtkButton")
    ensures KeyOf(FromElementTree(Document, Types).value.children.items[StrValue("test_button")], "id_")
            == StrValue("test_button")
    ensures FromElementTree(Document, Types).value.signals.keys == [StrValue("on_test_notify")]
  {
    Searches();
    SampleSignals();
    SampleChildren();
    SampleOthers();
    ObjectRecord(Button);
    TablesInOrder(Document);
    TemplateResult(Document, Types);
  }
}
