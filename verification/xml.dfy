/** An already-parsed XML document: elements with a tag, attributes and
    child elements, and the ElementTree queries the parser uses. */
module Xml {
  import opened Values

  datatype Node = Node(tag: string, attrs: map<string, string>, children: seq<Node>)

  /** The nodes of `ns` and all of their descendants, in document order. */
  function Flatten(ns: seq<Node>): (r: seq<Node>)
    ensures forall m :: m in ns ==> m in r
    decreases ns
  {
    if ns == [] then []
    else
      assert ns[0] in ns;
      [ns[0]] + Flatten(ns[0].children) + Flatten(ns[1..])
  }

  /** Every element below `n` (not `n` itself), in document order: the
      nodes an ElementTree descendant path selects. */
  function Descendants(n: Node): seq<Node> {
    Flatten(n.children)
  }

  /** The nodes of `ns` whose tag is `tag`, in their order. */
  function WithTag(ns: seq<Node>, tag: string): seq<Node> {
    if ns == [] then []
    else if ns[0].tag == tag then [ns[0]] + WithTag(ns[1..], tag)
    else WithTag(ns[1..], tag)
  }

  /** Filtering keeps exactly the nodes with the tag. */
  lemma {:induction false} WithTagMembers(ns: seq<Node>, tag: string)
    ensures forall m :: m in WithTag(ns, tag) <==> m in ns && m.tag == tag
  {
    if ns != [] {
      WithTagMembers(ns[1..], tag);
      assert forall m :: m in ns <==> m == ns[0] || m in ns[1..];
    }
  }

  /** Filtering distributes over concatenation. */
  lemma {:induction false} WithTagConcat(a: seq<Node>, b: seq<Node>, t: string)
    ensures WithTag(a + b, t) == WithTag(a, t) + WithTag(b, t)
  {
    if a == [] {
      assert a + b == b;
    } else {
      assert (a + b)[0] == a[0] && (a + b)[1..] == a[1..] + b;
      WithTagConcat(a[1..], b, t);
      if a[0].tag == t {
        calc {
          WithTag(a + b, t);
          [a[0]] + WithTag(a[1..] + b, t);
          [a[0]] + (WithTag(a[1..], t) + WithTag(b, t));
          ([a[0]] + WithTag(a[1..], t)) + WithTag(b, t);
        }
      }
    }
  }

  /** Filtering twice by the same tag is filtering once; by two different
      tags it leaves nothing. */
  lemma {:induction false} WithTagOf(ns: seq<Node>, t: string, u: string)
    ensures WithTag(WithTag(ns, t), u) == if t == u then WithTag(ns, t) else []
  {
    if ns != [] {
      WithTagOf(ns[1..], t, u);
    }
  }


  /** `n.findall('.//' + tag)`. */
  function FindAll(n: Node, tag: string): seq<Node> {
    WithTag(Descendants(n), tag)
  }

  /** `n.find('.//' + tag)`: the first match in document order, if any. */
  function Find(n: Node, tag: string): Option<Node> {
    var all := FindAll(n, tag);
    if all == [] then None else Some(all[0])
  }

  /** `n.get(name, absent)`: the attribute's text, or `absent`. */
  function Get(n: Node, name: string, absent: Value): Value {
    if name in n.attrs then StrValue(n.attrs[name]) else absent
  }
}
