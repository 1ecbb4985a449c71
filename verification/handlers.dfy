/** `extract_handler_and_args`: from the object (or mapping) that holds the
    handlers and a bound signal or closure element, the callable to invoke
    and the extra arguments to pass it. */
module Handlers {
  import opened Values
  import opened Elements
  import opened Binding
  import Xml

  /** The Python objects a handler attribute can hold: a callable, a
      sequence (tuple or list), a string (itself a sequence of one-character
      strings), `None`, or anything else. */
  datatype PyObj =
    | Callable(fn: string)
    | SeqObj(items: seq<PyObj>)
    | StrObj(s: string)
    | NoneObj
    | OtherObj(kind: string)

  /** Where handlers are looked up: an object's attributes (`getattr`) or a
      `Mapping` (`.get`). */
  datatype Scope = ObjectScope(attrs: map<string, PyObj>) | MappingScope(entries: map<Value, PyObj>)

  /** A handler together with the arguments bound in front of the call's
      own (`args` is the slice of the handler sequence after its head, the
      empty tuple for a plain callable). */
  datatype Invocation = Invocation(handler: PyObj, args: PyObj)

  /** The second half of `extract_handler_and_args`: a sequence is split
      into its head and the rest; a callable is used as is. */
  function Unpack(h: PyObj): Result<Invocation> {
    match h
    case SeqObj(items) =>
      if |items| == 0 then Err(TypeError(EmptyHandler)) else Ok(Invocation(items[0], SeqObj(items[1..])))
    case StrObj(s) =>
      if |s| == 0 then Err(TypeError(EmptyHandler)) else Ok(Invocation(StrObj(s[..1]), StrObj(s[1..])))
    case Callable(_) => Ok(Invocation(h, SeqObj([])))
    case _ => Err(TypeError(NotCallable))
  }

  /** The handler sequence `(handler, *args)` a closure came from. */
  function Pack(c: Invocation): PyObj
    requires c.args.SeqObj?
  {
    SeqObj([c.handler] + c.args.items)
  }

  /** Unpacking succeeds exactly for a non-empty sequence or string and for
      a callable; what it returns is the head and the rest of a sequence,
      and packing them again gives the sequence back. */
  lemma UnpackSpec(h: PyObj)
    ensures Unpack(h).Ok? <==> (h.SeqObj? && h.items != []) || (h.StrObj? && h.s != "") || h.Callable?
    ensures (h.SeqObj? && h.items == []) || (h.StrObj? && h.s == "") ==> Unpack(h) == Err(TypeError(EmptyHandler))
    ensures h.NoneObj? || h.OtherObj? ==> Unpack(h) == Err(TypeError(NotCallable))
    ensures h.SeqObj? && Unpack(h).Ok? ==> Pack(Unpack(h).value) == h
    ensures h.StrObj? && Unpack(h).Ok? ==>
              Unpack(h).value.handler.StrObj? && Unpack(h).value.args.StrObj?
              && Unpack(h).value.handler.s + Unpack(h).value.args.s == h.s
              && |Unpack(h).value.handler.s| == 1
    ensures h.Callable? ==> Unpack(h) == Ok(Invocation(h, SeqObj([])))
  {
    if h.SeqObj? && h.items != [] {
      assert [h.items[0]] + h.items[1..] == h.items;
    }
    if h.StrObj? && h.s != "" {
      assert h.s[..1] + h.s[1..] == h.s;
    }
  }

  /** Unpacking a packed closure gives the closure back. */
  lemma UnpackPack(c: Invocation)
    requires c.args.SeqObj?
    ensures Unpack(Pack(c)) == Ok(c)
  {
    assert ([c.handler] + c.args.items)[1..] == c.args.items;
  }

  /** `getattr(obj, name)`. */
  function GetAttr(attrs: map<string, PyObj>, name: Value): Result<PyObj> {
    match name
    case StrValue(s) => if s in attrs then Ok(attrs[s]) else Err(AttributeError(s))
    case _ => Err(TypeError(NonStringName))
  }

  /** `extract_handler_and_args` as written: the mapping branch looks the
      element itself up, and an element (a dataclass that defines equality)
      cannot be hashed, so the lookup raises TypeError on a dict or any other
      mapping whose `get` hashes its key. `do_create_closure` always passes
      the instance, an object, so inside the package only the object branch
      is reached (`ObjectScopeUnchanged`). */
  function ExtractHandlerAndArgsAsWritten(scope: Scope, e: Element): Result<Invocation> {
    match scope
    case MappingScope(_) => Err(TypeError(Unhashable))
    case ObjectScope(attrs) =>
      match GetAttr(attrs, CallbackName(e))
      case Err(err) => Err(err)
      case Ok(h) => Unpack(h)
  }

  /** `extract_handler_and_args` with the mapping looked up by the handler
      name, as the object branch does: a missing name reads as `None`. */
  function ExtractHandlerAndArgs(scope: Scope, e: Element): Result<Invocation> {
    match scope
    case MappingScope(entries) =>
      var name := CallbackName(e);
      Unpack(if name in entries then entries[name] else NoneObj)
    case ObjectScope(attrs) =>
      match GetAttr(attrs, CallbackName(e))
      case Err(err) => Err(err)
      case Ok(h) => Unpack(h)
  }

  /** The handler is found under the element's handler (signal) or function
      (closure) name in either kind of scope, and the two kinds agree when
      they hold the same handlers under the same names. */
  lemma ExtractByName(attrs: map<string, PyObj>, e: Element)
    requires CallbackName(e).StrValue?
    ensures CallbackName(e).s in attrs ==>
              ExtractHandlerAndArgs(ObjectScope(attrs), e) == Unpack(attrs[CallbackName(e).s])
    ensures CallbackName(e).s !in attrs ==>
              ExtractHandlerAndArgs(ObjectScope(attrs), e) == Err(AttributeError(CallbackName(e).s))
    ensures CallbackName(e).s in attrs ==>
              ExtractHandlerAndArgs(MappingScope(map k | k in attrs :: StrValue(k) := attrs[k]), e)
              == ExtractHandlerAndArgs(ObjectScope(attrs), e)
  {
    var m := map k | k in attrs :: StrValue(k) := attrs[k];
    if CallbackName(e).s in attrs {
      assert CallbackName(e) == StrValue(CallbackName(e).s);
      assert CallbackName(e) in m;
    }
  }

  /** On objects, the code as written and the corrected code agree. */
  lemma ObjectScopeUnchanged(attrs: map<string, PyObj>, e: Element)
    ensures ExtractHandlerAndArgsAsWritten(ObjectScope(attrs), e) == ExtractHandlerAndArgs(ObjectScope(attrs), e)
  {
  }

  /** A signal element whose handler is `on_click`. */
  const ClickSignal: Element :=
    Element(Signal, map["name" := StrValue("clicked"), "handler" := StrValue("on_click")], Xml.Node("signal", map[], []))

  /** A mapping that holds a callable under `on_click`: the code as written
      raises TypeError, the corrected code returns the callable. */
  lemma MappingLookupFails()
    ensures ExtractHandlerAndArgsAsWritten(MappingScope(map[StrValue("on_click") := Callable("f")]), ClickSignal)
            == Err(TypeError(Unhashable))
    ensures ExtractHandlerAndArgs(MappingScope(map[StrValue("on_click") := Callable("f")]), ClickSignal)
            == Ok(Invocation(Callable("f"), SeqObj([])))
  {
    assert CallbackName(ClickSignal) == StrValue("on_click");
  }
}
