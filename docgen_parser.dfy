/** The extractor of the packaged tool: `parse_code` lists the top-level
    functions and classes of a module, with the direct methods of each class
    and whether each has a docstring. */
module DocgenParser {
  import opened Wrappers
  import opened Seqs
  import opened PyAst

  /** The `"type"` entry of a record. */
  datatype ItemType = FunctionItem | MethodItem | ClassItem

  /** A function or method record: `name`, `params`, `has_docstring`, `type`. */
  datatype FunctionRecord = FunctionRecord(name: string, params: seq<string>, hasDocstring: bool, itemType: ItemType)

  /** A class record: `name`, `has_docstring`, `methods`, `type`. */
  datatype ClassRecord = ClassRecord(name: string, hasDocstring: bool, methods: seq<FunctionRecord>, itemType: ItemType)

  /** The pair `(functions, classes)` that `parse_code` returns. */
  type Extraction = (seq<FunctionRecord>, seq<ClassRecord>)

  /** `isinstance(node, ast.FunctionDef)`: an `async def` is not one. */
  predicate IsFunction(n: Node)
  {
    n.kind == FunctionDef
  }

  /** `isinstance(node, ast.ClassDef)`. */
  predicate IsClass(n: Node)
  {
    n.kind == ClassDef
  }

  function FunctionRecordOf(n: Node): FunctionRecord
  {
    FunctionRecord(n.name, n.args, HasDocstring(n), FunctionItem)
  }

  function MethodRecordOf(n: Node): FunctionRecord
  {
    FunctionRecord(n.name, n.args, HasDocstring(n), MethodItem)
  }

  /** The method records of a class body: its direct `def` statements, in order. */
  function MethodsOf(body: seq<Node>): seq<FunctionRecord>
  {
    if body == [] then []
    else
      var last := body[|body| - 1];
      MethodsOf(body[..|body| - 1]) + (if IsFunction(last) then [MethodRecordOf(last)] else [])
  }

  function ClassRecordOf(n: Node): ClassRecord
  {
    ClassRecord(n.name, HasDocstring(n), MethodsOf(n.body), ClassItem)
  }

  /** The function records of a module body, in source order. */
  function FunctionsOf(body: seq<Node>): seq<FunctionRecord>
  {
    if body == [] then []
    else
      var last := body[|body| - 1];
      FunctionsOf(body[..|body| - 1]) + (if IsFunction(last) then [FunctionRecordOf(last)] else [])
  }

  /** The class records of a module body, in source order. */
  function ClassesOf(body: seq<Node>): seq<ClassRecord>
  {
    if body == [] then []
    else
      var last := body[|body| - 1];
      ClassesOf(body[..|body| - 1]) + (if IsClass(last) then [ClassRecordOf(last)] else [])
  }

  /** What `parse_code` returns for a module that parsed. */
  function Extracted(m: Module): Extraction
  {
    (FunctionsOf(m.body), ClassesOf(m.body))
  }

  /** `parse_code(source)`: a syntax error propagates with no partial result;
      otherwise only the top-level statements are scanned, and the methods of
      each class are collected before the class record is appended. */
  method ParseCode(parsed: Parsed) returns (r: Result<Extraction, SyntaxError>)
    ensures parsed.Failure? ==> r == Failure(parsed.error)
    ensures parsed.Success? ==> r == Success(Extracted(parsed.value))
  {
    if parsed.Failure? {
      return Failure(parsed.error);
    }
    var body := parsed.value.body;
    var functions: seq<FunctionRecord> := [];
    var classes: seq<ClassRecord> := [];
    var i := 0;
    while i < |body|
      invariant i <= |body|
      invariant functions == FunctionsOf(body[..i])
      invariant classes == ClassesOf(body[..i])
    {
      var node := body[i];
      assert body[..i + 1][..i] == body[..i];
      if node.kind == FunctionDef {
        functions := functions + [FunctionRecordOf(node)];
      } else if node.kind == ClassDef {
        var methods: seq<FunctionRecord> := [];
        var k := 0;
        while k < |node.body|
          invariant k <= |node.body|
          invariant methods == MethodsOf(node.body[..k])
        {
          var item := node.body[k];
          assert node.body[..k + 1][..k] == node.body[..k];
          if item.kind == FunctionDef {
            methods := methods + [MethodRecordOf(item)];
          }
          k := k + 1;
        }
        assert node.body[..k] == node.body;
        classes := classes + [ClassRecord(node.name, HasDocstring(node), methods, ClassItem)];
      }
      i := i + 1;
    }
    assert body[..i] == body;
    return Success((functions, classes));
  }

  /** Reference definition: the function records are the top-level `def`
      statements, filtered, then mapped to records. */
  lemma {:induction false} FunctionsOfIsFilterMap(body: seq<Node>)
    ensures FunctionsOf(body) == Map(Filter(body, IsFunction), FunctionRecordOf)
  {
    if body != [] {
      var init, last := body[..|body| - 1], body[|body| - 1];
      assert body == init + [last];
      FunctionsOfIsFilterMap(init);
      FilterAppend(init, [last], IsFunction);
      MapAppend(Filter(init, IsFunction), Filter([last], IsFunction), FunctionRecordOf);
    }
  }

  /** Reference definition for the class records. */
  lemma {:induction false} ClassesOfIsFilterMap(body: seq<Node>)
    ensures ClassesOf(body) == Map(Filter(body, IsClass), ClassRecordOf)
  {
    if body != [] {
      var init, last := body[..|body| - 1], body[|body| - 1];
      assert body == init + [last];
      ClassesOfIsFilterMap(init);
      FilterAppend(init, [last], IsClass);
      MapAppend(Filter(init, IsClass), Filter([last], IsClass), ClassRecordOf);
    }
  }

  /** Reference definition for the method records of a class. */
  lemma {:induction false} MethodsOfIsFilterMap(body: seq<Node>)
    ensures MethodsOf(body) == Map(Filter(body, IsFunction), MethodRecordOf)
  {
    if body != [] {
      var init, last := body[..|body| - 1], body[|body| - 1];
      assert body == init + [last];
      MethodsOfIsFilterMap(init);
      FilterAppend(init, [last], IsFunction);
      MapAppend(Filter(init, IsFunction), Filter([last], IsFunction), MethodRecordOf);
    }
  }

  /** One function record per top-level `def`, one class record per top-level
      `class`: together never more than the module has statements. */
  lemma {:induction false} ExtractedCounts(body: seq<Node>)
    ensures |FunctionsOf(body)| == Count(body, IsFunction)
    ensures |ClassesOf(body)| == Count(body, IsClass)
    ensures |FunctionsOf(body)| + |ClassesOf(body)| <= |body|
  {
    if body != [] {
      ExtractedCounts(body[..|body| - 1]);
    }
  }

  /** Every function record comes from a top-level `def` and is typed
      "function"; every top-level `def` yields its record.  Nested and async
      functions therefore never appear. */
  lemma FunctionsOfMembers(body: seq<Node>)
    ensures forall f :: f in FunctionsOf(body) ==> f.itemType == FunctionItem
    ensures forall f :: f in FunctionsOf(body) ==> exists n :: n in body && IsFunction(n) && f == FunctionRecordOf(n)
    ensures forall n :: n in body && IsFunction(n) ==> FunctionRecordOf(n) in FunctionsOf(body)
  {
    FunctionsOfIsFilterMap(body);
    var kept := Filter(body, IsFunction);
    forall f | f in FunctionsOf(body)
      ensures exists n :: n in body && IsFunction(n) && f == FunctionRecordOf(n)
    {
      var i :| 0 <= i < |kept| && f == FunctionRecordOf(kept[i]);
      assert kept[i] in kept;
    }
    forall n | n in body && IsFunction(n)
      ensures FunctionRecordOf(n) in FunctionsOf(body)
    {
      FilterKeeps(body, IsFunction, n);
      var i :| 0 <= i < |kept| && kept[i] == n;
      assert FunctionsOf(body)[i] == FunctionRecordOf(n);
    }
  }

  /** Every class record comes from a top-level `class`, is typed "class",
      carries that class's own docstring flag and exactly its direct methods. */
  lemma ClassesOfMembers(body: seq<Node>)
    ensures forall c :: c in ClassesOf(body) ==> c.itemType == ClassItem
    ensures forall c :: c in ClassesOf(body) ==> exists n :: n in body && IsClass(n) && c == ClassRecordOf(n)
    ensures forall n :: n in body && IsClass(n) ==> ClassRecordOf(n) in ClassesOf(body)
  {
    ClassesOfIsFilterMap(body);
    var kept := Filter(body, IsClass);
    forall c | c in ClassesOf(body)
      ensures exists n :: n in body && IsClass(n) && c == ClassRecordOf(n)
    {
      var i :| 0 <= i < |kept| && c == ClassRecordOf(kept[i]);
      assert kept[i] in kept;
    }
    forall n | n in body && IsClass(n)
      ensures ClassRecordOf(n) in ClassesOf(body)
    {
      FilterKeeps(body, IsClass, n);
      var i :| 0 <= i < |kept| && kept[i] == n;
      assert ClassesOf(body)[i] == ClassRecordOf(n);
    }
  }

  /** A class's methods are its direct `def` statements, typed "method";
      nested classes, async methods and other statements are skipped. */
  lemma MethodsOfMembers(body: seq<Node>)
    ensures |MethodsOf(body)| == Count(body, IsFunction)
    ensures forall f :: f in MethodsOf(body) ==> f.itemType == MethodItem
    ensures forall f :: f in MethodsOf(body) ==> exists n :: n in body && IsFunction(n) && f == MethodRecordOf(n)
  {
    MethodsOfIsFilterMap(body);
    var kept := Filter(body, IsFunction);
    forall f | f in MethodsOf(body)
      ensures exists n :: n in body && IsFunction(n) && f == MethodRecordOf(n)
    {
      var i :| 0 <= i < |kept| && f == MethodRecordOf(kept[i]);
      assert kept[i] in kept;
    }
  }

  /** Extraction reads only the top level: statements appended to the module
      contribute their own records after the existing ones. */
  lemma {:induction false} ExtractedAppend(a: seq<Node>, b: seq<Node>)
    ensures FunctionsOf(a + b) == FunctionsOf(a) + FunctionsOf(b)
    ensures ClassesOf(a + b) == ClassesOf(a) + ClassesOf(b)
    decreases |b|
  {
    if b == [] {
      assert a + b == a;
    } else {
      var init := b[..|b| - 1];
      assert (a + b)[..|a + b| - 1] == a + init;
      assert (a + b)[|a + b| - 1] == b[|b| - 1];
      ExtractedAppend(a, init);
    }
  }

  /** `def add(a, b): return a + b` yields exactly one function record, for
      `add`, with parameters `a` and `b` and no docstring. */
  lemma AddScenario()
    ensures
      var ret := Node(Other, "", [], 1, 15, 0, None, []);
      var add := Node(FunctionDef, "add", ["a", "b"], 1, 0, 1, None, [ret]);
      var (functions, classes) := Extracted(Module([add]));
      functions == [FunctionRecord("add", ["a", "b"], false, FunctionItem)] && classes == []
  {
  }

  /** A function nested in another function, and an async function, are not
      listed; an empty docstring still counts as present. */
  lemma NestedScenario()
    ensures
      var inner := Node(FunctionDef, "inner", [], 2, 4, 3, Some("Inner."), []);
      var outer := Node(FunctionDef, "outer", ["x"], 1, 0, 2, Some(""), [inner]);
      var pending := Node(AsyncFunctionDef, "fetch", [], 5, 0, 6, None, []);
      Extracted(Module([outer, pending])).0 == [FunctionRecord("outer", ["x"], true, FunctionItem)]
  {
    var inner := Node(FunctionDef, "inner", [], 2, 4, 3, Some("Inner."), []);
    var outer := Node(FunctionDef, "outer", ["x"], 1, 0, 2, Some(""), [inner]);
    var pending := Node(AsyncFunctionDef, "fetch", [], 5, 0, 6, None, []);
    assert [outer, pending][..1] == [outer];
    assert [outer][..0] == [];
    assert FunctionsOf([outer]) == [FunctionRecordOf(outer)];
  }
}
