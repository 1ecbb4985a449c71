/** Where `TemplateMeta.load_template` takes a class's template from: an
    explicit source by priority, else the first existing file among the
    candidate names next to the class's module. */
module Loading {
  import opened Values

  /** A template source: XML text, a resource path, or a file path. */
  datatype Source = StringSource(text: Value) | ResourceSource(path: Value) | FileSource(path: Value)

  /** The class attributes `__template_string__`, `__template_resource__`
      and `__template_path__` (None unless the class sets them). */
  datatype Declared = Declared(templateString: Value, templateResource: Value, templatePath: Value)

  /** `kwargs.pop(key, default)`. */
  function Pop(kwargs: map<string, Value>, key: string, default: Value): Value {
    if key in kwargs then kwargs[key] else default
  }

  /** The explicit source: the first truthy of the string, the resource and
      the path, each taken from the class keyword if given (even a falsy
      one), else from the class attribute. */
  function ExplicitSource(kwargs: map<string, Value>, d: Declared): Option<Source> {
    var s := Pop(kwargs, "template_string", d.templateString);
    if s.Truthy() then Some(StringSource(s))
    else
      var r := Pop(kwargs, "template_resource", d.templateResource);
      if r.Truthy() then Some(ResourceSource(r))
      else
        var p := Pop(kwargs, "template_path", d.templatePath);
        if p.Truthy() then Some(FileSource(p)) else None
  }

  /** A truthy template string wins over everything else; a resource wins
      over a path. */
  lemma SourcePriority(kwargs: map<string, Value>, d: Declared)
    ensures Pop(kwargs, "template_string", d.templateString).Truthy() ==>
              ExplicitSource(kwargs, d) == Some(StringSource(Pop(kwargs, "template_string", d.templateString)))
    ensures !Pop(kwargs, "template_string", d.templateString).Truthy()
            && Pop(kwargs, "template_resource", d.templateResource).Truthy() ==>
              ExplicitSource(kwargs, d) == Some(ResourceSource(Pop(kwargs, "template_resource", d.templateResource)))
    ensures ExplicitSource(kwargs, d).None? <==>
              && !Pop(kwargs, "template_string", d.templateString).Truthy()
              && !Pop(kwargs, "template_resource", d.templateResource).Truthy()
              && !Pop(kwargs, "template_path", d.templatePath).Truthy()
  {
  }

  /** A keyword argument shadows the class attribute of the same kind, even
      when it is falsy: a class whose template string is set but that is
      given an empty `template_string` keyword falls through to the other
      sources. */
  lemma KeywordShadowsAttribute(kwargs: map<string, Value>, d: Declared)
    requires "template_string" in kwargs && !kwargs["template_string"].Truthy()
    ensures ExplicitSource(kwargs, d) == ExplicitSource(kwargs, d.(templateString := NoneValue))
    ensures d.templateString.Truthy() ==> ExplicitSource(kwargs, d) != Some(StringSource(d.templateString))
  {
  }

  // ---------------------------------------------------------------------
  // Discovery

  /** The extensions tried, in order. */
  const Extensions: seq<string> := ["ui", "xml", "glade"]

  /** `os.path.join(dir, file)` on POSIX paths. */
  function Join(dir: string, file: string): string {
    if |file| > 0 && file[0] == '/' then file
    else if dir == "" || dir[|dir| - 1] == '/' then dir + file
    else dir + "/" + file
  }

  /** The base names tried: the module name and the class name, each through
      the three case converters (given here as functions). */
  function NameSet(moduleName: string, className: string,
                   lower: string -> string, snake: string -> string, pascal: string -> string): set<string> {
    {lower(moduleName), snake(moduleName), pascal(moduleName),
     lower(className), snake(className), pascal(className)}
  }

  /** `names` lists the set `s` once each, in some order (Python leaves the
      iteration order of a set unspecified). */
  ghost predicate Enumerates(names: seq<string>, s: set<string>) {
    && (forall n :: n in names <==> n in s)
    && forall i, j :: 0 <= i < j < |names| ==> names[i] != names[j]
  }

  /** `os.path.join(dir, name + '.' + ext)`. */
  function FileName(dir: string, name: string, ext: string): string {
    Join(dir, name + "." + ext)
  }

  /** The file names for one extension, in name order. */
  function WithExtension(dir: string, names: seq<string>, ext: string): seq<string> {
    seq(|names|, i requires 0 <= i < |names| => FileName(dir, names[i], ext))
  }

  /** The candidate file names: extension by extension, then name by name. */
  function CandidatesFor(dir: string, names: seq<string>, exts: seq<string>): seq<string>
    decreases |exts|
  {
    if exts == [] then [] else WithExtension(dir, names, exts[0]) + CandidatesFor(dir, names, exts[1..])
  }

  function Candidates(dir: string, names: seq<string>): seq<string> {
    CandidatesFor(dir, names, Extensions)
  }

  /** The candidates are `|names|` `.ui` files, then as many `.xml`
      files, then as many `.glade` files, each block in name order. */
  lemma CandidatesLayout(dir: string, names: seq<string>)
    ensures |Candidates(dir, names)| == 3 * |names|
    ensures forall i :: 0 <= i < |names| ==>
              && Candidates(dir, names)[i] == FileName(dir, names[i], "ui")
              && Candidates(dir, names)[|names| + i] == FileName(dir, names[i], "xml")
              && Candidates(dir, names)[2 * |names| + i] == FileName(dir, names[i], "glade")
  {
    var ui, xml, glade := WithExtension(dir, names, "ui"), WithExtension(dir, names, "xml"), WithExtension(dir, names, "glade");
    CandidateBlocks(dir, names);
    var c := Candidates(dir, names);
    var n := |names|;
    forall i | 0 <= i < n
      ensures c[i] == ui[i] && c[n + i] == xml[i] && c[2 * n + i] == glade[i]
    {
    }
  }

  lemma CandidateBlocks(dir: string, names: seq<string>)
    ensures Candidates(dir, names)
         == WithExtension(dir, names, "ui") + WithExtension(dir, names, "xml") + WithExtension(dir, names, "glade")
  {
    var e := Extensions;
    assert e[0] == "ui" && e[1..][0] == "xml" && e[1..][1..][0] == "glade";
    assert e[1..][1..][1..] == [];
    assert CandidatesFor(dir, names, e[1..][1..][1..]) == [];
  }

  /** The first candidate that exists as a file. */
  function FirstExisting(candidates: seq<string>, files: set<string>): Option<string> {
    if candidates == [] then None
    else if candidates[0] in files then Some(candidates[0])
    else FirstExisting(candidates[1..], files)
  }

  /** `FirstExisting` picks an existing candidate with no existing candidate
      before it, and finds nothing exactly when no candidate exists. */
  lemma {:induction false} FirstExistingSpec(candidates: seq<string>, files: set<string>)
    ensures FirstExisting(candidates, files).None? <==> forall i :: 0 <= i < |candidates| ==> candidates[i] !in files
    ensures FirstExisting(candidates, files).Some? ==>
              exists i :: (&& 0 <= i < |candidates|
                           && candidates[i] == FirstExisting(candidates, files).value
                           && candidates[i] in files
                           && forall j :: 0 <= j < i ==> candidates[j] !in files)
    decreases |candidates|
  {
    if candidates != [] && candidates[0] !in files {
      var rest := candidates[1..];
      FirstExistingSpec(rest, files);
      assert forall i :: 0 <= i < |rest| ==> rest[i] == candidates[i + 1];
      if FirstExisting(rest, files).Some? {
        var i :| 0 <= i < |rest| && rest[i] == FirstExisting(rest, files).value && rest[i] in files
                 && forall j :: 0 <= j < i ==> rest[j] !in files;
        assert candidates[i + 1] == FirstExisting(candidates, files).value;
      }
      if forall i :: 0 <= i < |rest| ==> rest[i] !in files {
        forall i | 0 <= i < |candidates| ensures candidates[i] !in files {
          if i > 0 { assert candidates[i] == rest[i - 1]; }
        }
      }
    } else if candidates != [] {
      assert candidates[0] == FirstExisting(candidates, files).value;
    }
  }

  /** The source `load_template` reads for a class named `className`
      defined in a module in directory `dir`: the explicit source, else the
      first existing candidate file, else ValueError. */
  function TemplateSource(kwargs: map<string, Value>, d: Declared, className: string,
                          dir: string, names: seq<string>, files: set<string>): Result<Source> {
    match ExplicitSource(kwargs, d)
    case Some(src) => Ok(src)
    case None =>
      match FirstExisting(Candidates(dir, names), files)
      case None => Err(ValueError(className))
      case Some(f) => Ok(FileSource(StrValue(f)))
  }
}
