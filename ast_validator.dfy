/** The tree-based validator: every function, coroutine and class of the
    tree whose docstring is absent or empty is reported by kind and name. */
module AstValidator {
  import opened Wrappers
  import opened Seqs
  import opened PyAst
  import opened Injection
  import Validation
  import DocgenInjector
  import LegacyInjector

  /** `f"{node.__class__.__name__} '{node.name}' is missing a docstring."` */
  function ViolationOf(n: Node): string
  {
    KindName(n.kind) + " '" + n.name + "' is missing a docstring."
  }

  /** The messages collected over a walk, in walk order. */
  function Violations(walk: seq<Node>): (r: seq<string>)
    ensures |r| == Count(walk, NeedsDocstring)
  {
    if walk == [] then []
    else
      var last := walk[|walk| - 1];
      Violations(walk[..|walk| - 1]) + (if NeedsDocstring(last) then [ViolationOf(last)] else [])
  }

  /** Reference definition: one message per picked node, in walk order. */
  lemma {:induction false} ViolationsIsFilterMap(walk: seq<Node>)
    ensures Violations(walk) == Map(Filter(walk, NeedsDocstring), ViolationOf)
  {
    if walk != [] {
      var init, last := walk[..|walk| - 1], walk[|walk| - 1];
      var tail := if NeedsDocstring(last) then [last] else [];
      ViolationsIsFilterMap(init);
      assert Filter(walk, NeedsDocstring) == Filter(init, NeedsDocstring) + tail;
      MapAppend(Filter(init, NeedsDocstring), tail, ViolationOf);
    }
  }

  lemma ViolationsNext(walk: seq<Node>, i: nat)
    requires i < |walk|
    ensures Violations(walk[..i + 1])
         == Violations(walk[..i]) + (if NeedsDocstring(walk[i]) then [ViolationOf(walk[i])] else [])
  {
    assert walk[..i + 1][..i] == walk[..i];
  }

  /** `validate_docstrings(source_code, mode)`: parse, walk the tree and
      report every handled node whose docstring is falsy.  A syntax error
      propagates; `mode` is never read. */
  method ValidateDocstrings(parsed: Parsed, mode: string := "relaxed")
    returns (r: Result<Validation.ValidationResult, SyntaxError>)
    ensures parsed.Failure? ==> r == Failure(parsed.error)
    ensures parsed.Success? ==> r == Success(Validation.ResultOf(Violations(Walk(parsed.value))))
  {
    if parsed.Failure? {
      return Failure(parsed.error);
    }
    var walk := Walk(parsed.value);
    var violations: seq<string> := [];
    var i := 0;
    while i < |walk|
      invariant i <= |walk|
      invariant violations == Violations(walk[..i])
    {
      var node := walk[i];
      ViolationsNext(walk, i);
      if node.kind == FunctionDef || node.kind == AsyncFunctionDef || node.kind == ClassDef {
        if !(node.docstring.Some? && node.docstring.value != "") {
          var message := KindName(node.kind) + " '" + node.name + "' is missing a docstring.";
          assert message == ViolationOf(node);
          violations := violations + [message];
        }
      }
      i := i + 1;
    }
    assert walk[..i] == walk;
    return Success(Validation.ValidationResult(if violations == [] then "Pass" else "Fail", |violations|, violations));
  }

  /** The count is the number of handled nodes of the whole tree whose
      docstring is absent or empty. */
  lemma ReportCount(m: Module)
    ensures Validation.ResultOf(Violations(Walk(m))).count == Count(Preorder(m.body), NeedsDocstring)
  {
    WalkCount(m, NeedsDocstring);
  }

  /** The report passes exactly when every function, coroutine and class of
      the tree has a non-empty docstring. */
  lemma PassIff(m: Module)
    ensures Validation.ResultOf(Violations(Walk(m))).status == "Pass"
            <==> forall n :: n in Preorder(m.body) && Handled(n) ==> HasTruthyDocstring(n)
  {
    var tree := Preorder(m.body);
    WalkCount(m, NeedsDocstring);
    CountNone(tree, NeedsDocstring);
    if Count(tree, NeedsDocstring) == 0 {
      forall n | n in tree && Handled(n) ensures HasTruthyDocstring(n) {
        var k :| 0 <= k < |tree| && tree[k] == n;
      }
    } else {
      var k :| 0 <= k < |tree| && NeedsDocstring(tree[k]);
      assert tree[k] in tree;
    }
  }

  /** Every undocumented handled node reached by the walk is named in the
      report, and every message names one. */
  lemma ReportNamesEach(m: Module)
    ensures forall n :: n in Walk(m) && NeedsDocstring(n) ==> ViolationOf(n) in Violations(Walk(m))
    ensures forall v :: v in Violations(Walk(m)) ==> exists n :: n in Walk(m) && NeedsDocstring(n) && v == ViolationOf(n)
  {
    var walk := Walk(m);
    var f := Filter(walk, NeedsDocstring);
    ViolationsIsFilterMap(walk);
    forall n | n in walk && NeedsDocstring(n) ensures ViolationOf(n) in Violations(walk) {
      FilterKeeps(walk, NeedsDocstring, n);
      var k :| 0 <= k < |f| && f[k] == n;
      assert Map(f, ViolationOf)[k] == ViolationOf(n);
    }
    forall v | v in Violations(walk) ensures exists n :: n in walk && NeedsDocstring(n) && v == ViolationOf(n) {
      var k :| 0 <= k < |f| && Map(f, ViolationOf)[k] == v;
      assert f[k] in f;
    }
  }

  /** The validator reports exactly as many nodes as either injector fills
      in: all three pick the same nodes of the same walk. */
  lemma AgreesWithInjectors(m: Module)
    ensures |Violations(Walk(m))| == |DocgenInjector.Plan(Walk(m))|
    ensures |Violations(Walk(m))| == |LegacyInjector.Plan(Walk(m))|
  {
  }
}
