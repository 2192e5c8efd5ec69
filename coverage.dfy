/** The coverage report of the packaged tool: how many of the extracted
    functions and methods carry a docstring. */
module Coverage {
  import opened Wrappers
  import opened Seqs
  import opened PyAst
  import opened DocgenParser

  /** `{"total", "documented", "missing", "coverage"}`; `coverage` is a percentage. */
  datatype Report = Report(total: nat, documented: nat, missing: int, coverage: real)

  predicate Documented(f: FunctionRecord)
  {
    f.hasDocstring
  }

  function MethodTotal(c: ClassRecord): nat
  {
    |c.methods|
  }

  function MethodsDocumented(c: ClassRecord): nat
  {
    Count(c.methods, Documented)
  }

  /** Every method of every class, class after class. */
  function AllMethods(classes: seq<ClassRecord>): seq<FunctionRecord>
  {
    if classes == [] then [] else AllMethods(classes[..|classes| - 1]) + classes[|classes| - 1].methods
  }

  /** `documented / total * 100`, or 0 when there is nothing to count. */
  function Percent(documented: nat, total: nat): (p: real)
    requires documented <= total
    ensures 0.0 <= p <= 100.0
    ensures total == 0 ==> p == 0.0
    ensures total > 0 ==> p * (total as real) == (documented as real) * 100.0
    ensures p == 100.0 <==> total > 0 && documented == total
  {
    if total > 0 then
      var ratio := (documented as real) / (total as real);
      assert ratio * (total as real) == documented as real;
      assert ratio <= 1.0;
      assert ratio == 1.0 ==> documented == total;
      ratio * 100.0
    else 0.0
  }

  /** The report `generate_coverage_report(functions, classes)` returns. */
  function CoverageOf(functions: seq<FunctionRecord>, classes: seq<ClassRecord>): (r: Report)
    ensures r.documented <= r.total
    ensures r.missing == r.total - r.documented && r.missing >= 0
    ensures 0.0 <= r.coverage <= 100.0
    ensures r.total == 0 ==> r.coverage == 0.0
    ensures r.coverage == 100.0 <==> r.total > 0 && r.documented == r.total
  {
    var total := |functions| + Sum(classes, MethodTotal);
    var documented := Count(functions, Documented) + Sum(classes, MethodsDocumented);
    MethodsDocumentedBound(classes);
    Report(total, documented, total - documented, Percent(documented, total))
  }

  lemma {:induction false} MethodsDocumentedBound(classes: seq<ClassRecord>)
    ensures Sum(classes, MethodsDocumented) <= Sum(classes, MethodTotal)
  {
    if classes != [] {
      MethodsDocumentedBound(classes[..|classes| - 1]);
    }
  }

  /** `generate_coverage_report`: one pass over the functions, then one over
      the methods of each class; class records themselves are not counted. */
  method GenerateCoverageReport(functions: seq<FunctionRecord>, classes: seq<ClassRecord>) returns (r: Report)
    ensures r == CoverageOf(functions, classes)
  {
    var total: nat := 0;
    var documented: nat := 0;
    var i := 0;
    while i < |functions|
      invariant i <= |functions|
      invariant total == i
      invariant documented == Count(functions[..i], Documented)
    {
      CountNext(functions, i, Documented);
      total := total + 1;
      if functions[i].hasDocstring {
        documented := documented + 1;
      }
      i := i + 1;
    }
    assert functions[..i] == functions;
    var c := 0;
    while c < |classes|
      invariant c <= |classes|
      invariant total == |functions| + Sum(classes[..c], MethodTotal)
      invariant documented == Count(functions, Documented) + Sum(classes[..c], MethodsDocumented)
    {
      var methods := classes[c].methods;
      var k := 0;
      while k < |methods|
        invariant k <= |methods|
        invariant total == |functions| + Sum(classes[..c], MethodTotal) + k
        invariant documented == Count(functions, Documented) + Sum(classes[..c], MethodsDocumented)
                                + Count(methods[..k], Documented)
      {
        CountNext(methods, k, Documented);
        total := total + 1;
        if methods[k].hasDocstring {
          documented := documented + 1;
        }
        k := k + 1;
      }
      assert methods[..k] == methods;
      SumNext(classes, c, MethodTotal);
      SumNext(classes, c, MethodsDocumented);
      c := c + 1;
    }
    assert classes[..c] == classes;
    ReportOfCounts(functions, classes, total, documented);
    var missing := total - documented;
    var coverage := if total > 0 then (documented as real) / (total as real) * 100.0 else 0.0;
    return Report(total, documented, missing, coverage);
  }

  /** The report built from the two counts is the coverage report. */
  lemma ReportOfCounts(functions: seq<FunctionRecord>, classes: seq<ClassRecord>, total: nat, documented: nat)
    requires total == |functions| + Sum(classes, MethodTotal)
    requires documented == Count(functions, Documented) + Sum(classes, MethodsDocumented)
    ensures documented <= total
    ensures Report(total, documented, total - documented,
                   if total > 0 then (documented as real) / (total as real) * 100.0 else 0.0)
         == CoverageOf(functions, classes)
  {
    MethodsDocumentedBound(classes);
    PercentValue(documented, total);
  }

  lemma PercentValue(documented: nat, total: nat)
    requires documented <= total
    ensures Percent(documented, total)
         == if total > 0 then (documented as real) / (total as real) * 100.0 else 0.0
  {
  }

  lemma {:induction false} AllMethodsCounts(classes: seq<ClassRecord>)
    ensures |AllMethods(classes)| == Sum(classes, MethodTotal)
    ensures Count(AllMethods(classes), Documented) == Sum(classes, MethodsDocumented)
  {
    if classes != [] {
      var init := classes[..|classes| - 1];
      AllMethodsCounts(init);
      CountAppend(AllMethods(init), classes[|classes| - 1].methods, Documented);
    }
  }

  /** Reference reading: `total` is the number of function and method records
      together, `documented` the number of those with a docstring. */
  lemma CoverageCountsRecords(functions: seq<FunctionRecord>, classes: seq<ClassRecord>)
    ensures CoverageOf(functions, classes).total == |functions + AllMethods(classes)|
    ensures CoverageOf(functions, classes).documented == Count(functions + AllMethods(classes), Documented)
  {
    AllMethodsCounts(classes);
    CountAppend(functions, AllMethods(classes), Documented);
  }

  /** The report does not depend on the order of the functions or the classes. */
  lemma CoverageOrderFree(functions: seq<FunctionRecord>, functions': seq<FunctionRecord>,
                          classes: seq<ClassRecord>, classes': seq<ClassRecord>)
    requires multiset(functions) == multiset(functions') && multiset(classes) == multiset(classes')
    ensures CoverageOf(functions, classes) == CoverageOf(functions', classes')
  {
    CountPermutation(functions, functions', Documented);
    SumPermutation(classes, classes', MethodTotal);
    SumPermutation(classes, classes', MethodsDocumented);
    assert |functions| == |multiset(functions)| == |functions'|;
  }

  /** A class record's own name, docstring flag and type never enter the
      report: only its methods do. */
  lemma ClassFlagIgnored(functions: seq<FunctionRecord>, classes: seq<ClassRecord>, i: nat, c: ClassRecord)
    requires i < |classes| && c.methods == classes[i].methods
    ensures CoverageOf(functions, classes[i := c]) == CoverageOf(functions, classes)
  {
    SumUpdate(classes, i, c, MethodTotal);
    SumUpdate(classes, i, c, MethodsDocumented);
  }

  /** The demonstration module: four top-level functions, `divide` without a
      docstring, and a documented class whose one method `power` is documented. */
  const DemoReturn := Node(Other, "", [], 0, 0, 0, None, [])
  const DemoAdd := Node(FunctionDef, "add", ["a", "b"], 6, 0, 7, Some("Add two numbers."), [DemoReturn])
  const DemoSubtract := Node(FunctionDef, "subtract", ["a", "b"], 20, 0, 21, Some("Subtract."), [DemoReturn])
  const DemoMultiply := Node(FunctionDef, "multiply", ["a", "b"], 34, 0, 35, Some("Multiply."), [DemoReturn])
  const DemoDivide := Node(FunctionDef, "divide", ["a", "b"], 48, 0, 49, None, [DemoReturn])
  const DemoPower := Node(FunctionDef, "power", ["self", "base", "exponent"], 57, 4, 58, Some("Raise."), [DemoReturn])
  const DemoCalculator := Node(ClassDef, "Calculator", [], 52, 0, 53, Some("Basic calculator class."), [DemoPower])
  const DemoModule := Module([DemoAdd, DemoSubtract, DemoMultiply, DemoDivide, DemoCalculator])

  const DemoFunctions := [FunctionRecordOf(DemoAdd), FunctionRecordOf(DemoSubtract),
                          FunctionRecordOf(DemoMultiply), FunctionRecordOf(DemoDivide)]
  const DemoClasses := [ClassRecord("Calculator", true, [MethodRecordOf(DemoPower)], ClassItem)]

  lemma DemoExtraction()
    ensures Extracted(DemoModule) == (DemoFunctions, DemoClasses)
  {
    var f := DemoFunctions;
    var body := DemoModule.body;
    assert body[..1][..0] == [];
    assert FunctionsOf(body[..1]) == f[..1] && ClassesOf(body[..1]) == [];
    assert body[..2][..1] == body[..1];
    assert FunctionsOf(body[..2]) == f[..2] && ClassesOf(body[..2]) == [];
    assert body[..3][..2] == body[..2];
    assert FunctionsOf(body[..3]) == f[..3] && ClassesOf(body[..3]) == [];
    assert body[..4][..3] == body[..3];
    assert FunctionsOf(body[..4]) == f && ClassesOf(body[..4]) == [];
    assert [DemoPower][..0] == [];
    assert MethodsOf([DemoPower]) == [MethodRecordOf(DemoPower)];
    assert FunctionsOf(body) == f;
    assert body[4] == DemoCalculator && DemoCalculator.body == [DemoPower];
    assert ClassRecordOf(DemoCalculator) == DemoClasses[0];
    assert ClassesOf(body) == DemoClasses;
  }

  lemma DemoCoverage()
    ensures CoverageOf(DemoFunctions, DemoClasses) == Report(5, 4, 1, 80.0)
  {
    var f := DemoFunctions;
    assert f[..1][..0] == [];
    assert f[..2][..1] == f[..1] && f[..3][..2] == f[..2] && f[..3] == f[..|f| - 1];
    assert Count(f[..2], Documented) == 2;
    assert Count(f[..3], Documented) == 3;
    assert Count(f, Documented) == 3;
    assert DemoClasses[..0] == [];
    assert [MethodRecordOf(DemoPower)][..0] == [];
    assert Sum(DemoClasses, MethodTotal) == 1;
    assert Sum(DemoClasses, MethodsDocumented) == 1;
    assert Percent(4, 5) == 80.0;
  }

  /** Parsing and reporting the demonstration module: five records are
      counted, four documented, one missing, 80 percent. */
  lemma DemoEightyPercent()
    ensures CoverageOf(Extracted(DemoModule).0, Extracted(DemoModule).1) == Report(5, 4, 1, 80.0)
  {
    DemoExtraction();
    DemoCoverage();
  }
}
