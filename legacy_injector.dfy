/** The older injector: every function, coroutine and class whose docstring
    is absent or empty gets a one-line docstring, inserted in front of its
    first body statement. */
module LegacyInjector {
  import opened Wrappers
  import opened Seqs
  import opened Text
  import opened PyAst
  import opened Splice
  import opened Injection
  import StyledGenerator

  /** `f'{doc_indent}"""Class {name}."""'` or `f'{doc_indent}"""Function {name}."""'`,
      with `doc_indent` the header's column plus four spaces. */
  function DocLine(n: Node): string
  {
    var docIndent := Spaces(n.colOffset) + "    ";
    if n.kind == ClassDef then docIndent + StyledGenerator.Quotes + "Class " + n.name + "." + StyledGenerator.Quotes
    else docIndent + StyledGenerator.Quotes + "Function " + n.name + "." + StyledGenerator.Quotes
  }

  function EntryOf(n: Node): Insert
  {
    Insert(BodyIndex(n), [DocLine(n)])
  }

  /** The inserts collected over a walk, in walk order. */
  function Plan(walk: seq<Node>): seq<Insert>
  {
    PlanOf(walk, NeedsDocstring, EntryOf)
  }

  /** The positions `ast.parse` gives a tree of that source: every handled
      node's first body statement is on a line of the source. */
  predicate Anchored(m: Module, source: string)
  {
    (forall n :: n in Walk(m) && NeedsDocstring(n) ==> 1 <= n.bodyLine)
    && Within(Plan(Walk(m)), |SplitLines(source)|)
  }

  /** The buffer after injection. */
  function InjectedLines(m: Module, source: string): seq<string>
    requires Anchored(m, source)
  {
    Applied(SplitLines(source), Plan(Walk(m)))
  }

  /** `inject_docstrings(source_code, style)`. */
  function Injected(m: Module, source: string): string
    requires Anchored(m, source)
  {
    Join(InjectedLines(m, source))
  }

  /** `inject_docstrings(source_code, style)`: split the source into lines,
      parse it, collect one line per handled node without a truthy docstring,
      then insert them in `sorted(inserts, reverse=True)` order.  A syntax
      error propagates; `style` is never read. */
  method InjectDocstrings(parsed: Parsed, source: string, style: string) returns (r: Result<string, SyntaxError>)
    ensures parsed.Failure? ==> r == Failure(parsed.error)
    ensures parsed.Success? ==> r.Success?
    ensures parsed.Success? && Anchored(parsed.value, source) ==> r == Success(Injected(parsed.value, source))
  {
    var original := SplitLines(source);
    var lines := original;
    if parsed.Failure? {
      return Failure(parsed.error);
    }
    var walk := Walk(parsed.value);
    var inserts: seq<Insert> := [];
    var i := 0;
    while i < |walk|
      invariant i <= |walk|
      invariant inserts == PlanOf(walk[..i], NeedsDocstring, EntryOf)
      invariant OneLineEach(inserts)
    {
      var node := walk[i];
      PlanOfNext(walk, i, NeedsDocstring, EntryOf);
      if node.kind == FunctionDef || node.kind == AsyncFunctionDef || node.kind == ClassDef {
        if !(node.docstring.Some? && node.docstring.value != "") {
          var indent := Spaces(node.colOffset);
          var docIndent := indent + "    ";
          var doc: string;
          if node.kind == ClassDef {
            doc := docIndent + StyledGenerator.Quotes + "Class " + node.name + "." + StyledGenerator.Quotes;
          } else {
            doc := docIndent + StyledGenerator.Quotes + "Function " + node.name + "." + StyledGenerator.Quotes;
          }
          var entry := Insert(BodyIndex(node), [doc]);
          assert doc == DocLine(node);
          OneLineSnoc(inserts, entry);
          inserts := inserts + [entry];
        }
      }
      i := i + 1;
    }
    assert walk[..i] == walk;

    lines := InsertEach(lines, inserts);
    return Success(Join(lines));
  }

  /** The lines a node adds: one for an undocumented handled node. */
  function AddedLines(n: Node): nat
  {
    if NeedsDocstring(n) then 1 else 0
  }

  /** One line per handled node of the tree whose docstring is falsy: the
      buffer grows by exactly that many lines. */
  lemma InjectedGrowth(m: Module, source: string)
    requires Anchored(m, source)
    ensures |Plan(Walk(m))| == Count(Preorder(m.body), NeedsDocstring)
    ensures |InjectedLines(m, source)| == |SplitLines(source)| + Count(Preorder(m.body), NeedsDocstring)
  {
    WalkCount(m, NeedsDocstring);
    PlanOfSizes(Walk(m), NeedsDocstring, EntryOf, AddedLines);
    CountIsAdded(Walk(m));
  }

  lemma {:induction false} CountIsAdded(walk: seq<Node>)
    ensures Count(walk, NeedsDocstring) == Sum(walk, AddedLines)
  {
    if walk != [] {
      CountIsAdded(walk[..|walk| - 1]);
    }
  }

  /** With every handled node documented, nothing is inserted: the output is
      `"\n".join(source.splitlines())`. */
  lemma NothingMissing(m: Module, source: string)
    requires Count(Preorder(m.body), NeedsDocstring) == 0
    ensures Anchored(m, source)
    ensures Injected(m, source) == Join(SplitLines(source))
  {
    WalkCount(m, NeedsDocstring);
    CountNone(Walk(m), NeedsDocstring);
    AppliedNothing(SplitLines(source));
  }

  /** Every original line survives unchanged, shifted down by the lines
      inserted at or above it, and the original lines keep their order. */
  lemma InjectedKeepsLines(m: Module, source: string, i: nat, i': nat)
    requires Anchored(m, source) && i <= i' < |SplitLines(source)|
    ensures var plan := Plan(Walk(m));
      i + SizesUpTo(plan, i) <= i' + SizesUpTo(plan, i') < |InjectedLines(m, source)|
      && InjectedLines(m, source)[i + SizesUpTo(plan, i)] == SplitLines(source)[i]
      && InjectedLines(m, source)[i' + SizesUpTo(plan, i')] == SplitLines(source)[i']
      && (i < i' ==> i + SizesUpTo(plan, i) < i' + SizesUpTo(plan, i'))
  {
    AppliedKeepsOrder(SplitLines(source), Plan(Walk(m)), i, i');
  }

  /** Undocumented handled nodes whose line goes in at index `index`. */
  function BodyAt(index: nat): Node -> bool
  {
    (n: Node) => NeedsDocstring(n) && BodyIndex(n) == index
  }

  /** A node's docstring line lands immediately in front of the line of its
      first body statement and, when that is not the first line, immediately
      after the line before it.  This holds for every node that is the only
      undocumented one whose body starts on that line. */
  lemma LineBeforeBody(m: Module, source: string, n: Node)
    requires Anchored(m, source) && n in Walk(m) && NeedsDocstring(n)
    requires 1 <= n.bodyLine <= |SplitLines(source)|
    requires Count(Walk(m), BodyAt(n.bodyLine - 1)) == 1
    ensures var lines, out, e := SplitLines(source), InjectedLines(m, source), EntryOf(n);
      var p := e.at + SizesBelow(Plan(Walk(m)), e.at);
      p + 1 < |out|
      && out[p] == DocLine(n)
      && out[p + 1] == lines[e.at]
      && (0 < e.at ==> out[p - 1] == lines[e.at - 1])
  {
    PlanLinePlaced(SplitLines(source), Walk(m), NeedsDocstring, EntryOf, BodyAt(n.bodyLine - 1),
                   Plan(Walk(m)), n, EntryOf(n));
  }

  /** The inserted line is one line of text, indented `col_offset + 4`
      spaces, holding a complete docstring literal that names the node. */
  lemma DocLineLayout(n: Node)
    requires NoNewline(n.name)
    ensures var d, di := DocLine(n), Spaces(n.colOffset + 4);
      NoNewline(d) && StartsWith(d, di)
      && d[|di|..] == StyledGenerator.Quotes + (if n.kind == ClassDef then "Class " else "Function ")
                      + n.name + "." + StyledGenerator.Quotes
  {
    var d, di := DocLine(n), Spaces(n.colOffset + 4);
    assert Spaces(n.colOffset) + "    " == di;
    var word := if n.kind == ClassDef then "Class " else "Function ";
    assert d == di + (StyledGenerator.Quotes + word + n.name + "." + StyledGenerator.Quotes);
    assert NoNewline(di + StyledGenerator.Quotes + word) by {
      assert forall k :: 0 <= k < |di| ==> di[k] == ' ';
    }
  }

  const OneLinerSource := "def add(a, b): return a + b"
  const OneLinerReturn := Node(Other, "", [], 1, 15, 0, None, [])
  const OneLiner := Node(FunctionDef, "add", ["a", "b"], 1, 0, 1, None, [OneLinerReturn])

  lemma OneLinerWalk()
    ensures Walk(Module([OneLiner])) == [OneLiner, OneLinerReturn]
  {
    assert WalkQueue([OneLinerReturn]) == [OneLinerReturn] by {
      assert [OneLinerReturn][1..] + OneLinerReturn.body == [];
    }
    WalkQueueStep([OneLiner], [OneLinerReturn]);
  }

  lemma OneLinerSplit()
    ensures SplitLines(OneLinerSource) == [OneLinerSource]
  {
    var src := OneLinerSource;
    assert src[|src| - 1] == 'b';
    assert NoNewline(src);
    SplitJoin([src]);
  }

  lemma OneLinerPlan()
    ensures Plan([OneLiner, OneLinerReturn]) == [Insert(0, [DocLine(OneLiner)])]
  {
    var walk := [OneLiner, OneLinerReturn];
    PlanOfNext(walk, 0, NeedsDocstring, EntryOf);
    PlanOfNext(walk, 1, NeedsDocstring, EntryOf);
    assert walk[..2] == walk;
    assert walk[..0] == [];
  }

  lemma OneLinerDocLine()
    ensures DocLine(OneLiner) == "    \"\"\"Function add.\"\"\""
  {
    assert Spaces(0) + "    " == "    ";
  }

  lemma OneLinerApplied(src: string, d: string)
    ensures Applied([src], [Insert(0, [d])]) == [d, src]
  {
    var e := Insert(0, [d]);
    assert SortDescending([e]) == [e];
    assert Placed([e]) == [e];
    assert [e][..0] == [];
    assert [src][..0] == [];
    assert [src][0..] == [src];
  }

  /** A one-line definition has its first body statement on the header's own
      line, so `body[0].lineno - 1` is the header's index: the docstring line
      goes in front of the `def`, not inside its body. */
  lemma OneLinerScenario()
    ensures Anchored(Module([OneLiner]), OneLinerSource)
    ensures InjectedLines(Module([OneLiner]), OneLinerSource)
         == ["    \"\"\"Function add.\"\"\"", OneLinerSource]
  {
    OneLinerAnchored();
    var plan := [Insert(0, [DocLine(OneLiner)])];
    assert InjectedLines(Module([OneLiner]), OneLinerSource) == Applied([OneLinerSource], plan) by {
      OneLinerWalk();
      OneLinerSplit();
      OneLinerPlan();
    }
    OneLinerApplied(OneLinerSource, DocLine(OneLiner));
    OneLinerDocLine();
  }

  lemma OneLinerAnchored()
    ensures Anchored(Module([OneLiner]), OneLinerSource)
  {
    OneLinerWalk();
    OneLinerSplit();
    OneLinerPlan();
  }
}
