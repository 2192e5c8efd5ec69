/** The earlier extractor: the same scan as the packaged one, but its records
    carry no `"type"` entry and its class records no docstring flag. */
module LegacyParser {
  import opened Wrappers
  import opened Seqs
  import opened PyAst
  import DocgenParser

  /** A function or method record: `name`, `params`, `has_docstring`. */
  datatype FunctionEntry = FunctionEntry(name: string, params: seq<string>, hasDocstring: bool)

  /** A class record: `name` and `methods` only. */
  datatype ClassEntry = ClassEntry(name: string, methods: seq<FunctionEntry>)

  type Extraction = (seq<FunctionEntry>, seq<ClassEntry>)

  function EntryOf(n: Node): FunctionEntry
  {
    FunctionEntry(n.name, n.args, HasDocstring(n))
  }

  /** The direct `def` statements of a class body, in order. */
  function MethodEntries(body: seq<Node>): seq<FunctionEntry>
  {
    if body == [] then []
    else
      var last := body[|body| - 1];
      MethodEntries(body[..|body| - 1]) + (if DocgenParser.IsFunction(last) then [EntryOf(last)] else [])
  }

  function ClassEntryOf(n: Node): ClassEntry
  {
    ClassEntry(n.name, MethodEntries(n.body))
  }

  function FunctionEntries(body: seq<Node>): seq<FunctionEntry>
  {
    if body == [] then []
    else
      var last := body[|body| - 1];
      FunctionEntries(body[..|body| - 1]) + (if DocgenParser.IsFunction(last) then [EntryOf(last)] else [])
  }

  function ClassEntries(body: seq<Node>): seq<ClassEntry>
  {
    if body == [] then []
    else
      var last := body[|body| - 1];
      ClassEntries(body[..|body| - 1]) + (if DocgenParser.IsClass(last) then [ClassEntryOf(last)] else [])
  }

  function Extracted(m: Module): Extraction
  {
    (FunctionEntries(m.body), ClassEntries(m.body))
  }

  /** `parse_code(source)` of the earlier extractor. */
  method ParseCode(parsed: Parsed) returns (r: Result<Extraction, SyntaxError>)
    ensures parsed.Failure? ==> r == Failure(parsed.error)
    ensures parsed.Success? ==> r == Success(Extracted(parsed.value))
  {
    if parsed.Failure? {
      return Failure(parsed.error);
    }
    var body := parsed.value.body;
    var functions: seq<FunctionEntry> := [];
    var classes: seq<ClassEntry> := [];
    var i := 0;
    while i < |body|
      invariant i <= |body|
      invariant functions == FunctionEntries(body[..i])
      invariant classes == ClassEntries(body[..i])
    {
      var node := body[i];
      assert body[..i + 1][..i] == body[..i];
      if node.kind == FunctionDef {
        functions := functions + [EntryOf(node)];
      } else if node.kind == ClassDef {
        var methods: seq<FunctionEntry> := [];
        var k := 0;
        while k < |node.body|
          invariant k <= |node.body|
          invariant methods == MethodEntries(node.body[..k])
        {
          var item := node.body[k];
          assert node.body[..k + 1][..k] == node.body[..k];
          if item.kind == FunctionDef {
            methods := methods + [EntryOf(item)];
          }
          k := k + 1;
        }
        assert node.body[..k] == node.body;
        classes := classes + [ClassEntry(node.name, methods)];
      }
      i := i + 1;
    }
    assert body[..i] == body;
    return Success((functions, classes));
  }

  /** A packaged record with its `"type"` entry dropped. */
  function Forget(f: DocgenParser.FunctionRecord): FunctionEntry
  {
    FunctionEntry(f.name, f.params, f.hasDocstring)
  }

  /** A packaged class record with its docstring flag and `"type"` dropped. */
  function ForgetClass(c: DocgenParser.ClassRecord): ClassEntry
  {
    ClassEntry(c.name, Map(c.methods, Forget))
  }

  lemma {:induction false} MethodEntriesAgree(body: seq<Node>)
    ensures MethodEntries(body) == Map(DocgenParser.MethodsOf(body), Forget)
  {
    if body != [] {
      var init, last := body[..|body| - 1], body[|body| - 1];
      MethodEntriesAgree(init);
      var tail := if DocgenParser.IsFunction(last) then [DocgenParser.MethodRecordOf(last)] else [];
      MapAppend(DocgenParser.MethodsOf(init), tail, Forget);
    }
  }

  /** Both extractors list the same functions and classes, in the same order,
      with the same names, parameters, methods and method docstring flags;
      the earlier one only omits the extra entries. */
  lemma {:induction false} ExtractorsAgree(body: seq<Node>)
    ensures FunctionEntries(body) == Map(DocgenParser.FunctionsOf(body), Forget)
    ensures ClassEntries(body) == Map(DocgenParser.ClassesOf(body), ForgetClass)
  {
    if body != [] {
      var init, last := body[..|body| - 1], body[|body| - 1];
      ExtractorsAgree(init);
      var fs := if DocgenParser.IsFunction(last) then [DocgenParser.FunctionRecordOf(last)] else [];
      var cs := if DocgenParser.IsClass(last) then [DocgenParser.ClassRecordOf(last)] else [];
      MapAppend(DocgenParser.FunctionsOf(init), fs, Forget);
      MapAppend(DocgenParser.ClassesOf(init), cs, ForgetClass);
      MethodEntriesAgree(last.body);
    }
  }

  /** `def add(a, b): return a + b` yields exactly one function. */
  lemma AddScenario()
    ensures
      var ret := Node(Other, "", [], 1, 15, 0, None, []);
      var add := Node(FunctionDef, "add", ["a", "b"], 1, 0, 1, None, [ret]);
      Extracted(Module([add])) == ([FunctionEntry("add", ["a", "b"], false)], [])
  {
    var ret := Node(Other, "", [], 1, 15, 0, None, []);
    var add := Node(FunctionDef, "add", ["a", "b"], 1, 0, 1, None, [ret]);
    assert [add][..0] == [];
    assert FunctionEntries([add]) == [EntryOf(add)];
    assert ClassEntries([add]) == [];
  }
}
