/** The standalone injection script: every function and class without a
    docstring gets a Google-style docstring, folded into one buffer element
    and inserted in front of its first body statement. */
module ScriptsInjectDocs {
  import opened Wrappers
  import opened Seqs
  import opened Text
  import opened PyAst
  import opened Splice
  import opened Injection
  import StyledGenerator
  import DocgenInjector

  /** `has_docstring(node)`: `ast.get_docstring(node) is not None`, so an
      empty docstring counts as present. */
  predicate HasDocstringScript(n: Node)
  {
    n.docstring.Some?
  }

  /** `isinstance(node, (ast.FunctionDef, ast.ClassDef)) and not has_docstring(node)`. */
  predicate Picked(n: Node)
  {
    (n.kind == FunctionDef || n.kind == ClassDef) && !HasDocstringScript(n)
  }

  function ParamLine(p: string): string
  {
    "    " + p + ": description"
  }

  /** The lines `generate_google_docstring(name, params)` joins. */
  function GoogleDocLines(name: string, params: seq<string>): seq<string>
  {
    [name + ".", "", "Args:"] + Map(params, ParamLine) + ["", "Returns:", "    description"]
  }

  /** `generate_google_docstring(name, params)`: a list grown by appends, then
      joined with line breaks. */
  method GenerateGoogleDocstring(name: string, params: seq<string>) returns (doc: string)
    ensures doc == Join(GoogleDocLines(name, params))
  {
    var lines := [name + ".", "", "Args:"];
    var i := 0;
    while i < |params|
      invariant i <= |params|
      invariant lines == [name + ".", "", "Args:"] + Map(params[..i], ParamLine)
    {
      assert params[..i + 1][..i] == params[..i];
      lines := lines + ["    " + params[i] + ": description"];
      i := i + 1;
    }
    assert params[..i] == params;
    lines := lines + [""];
    lines := lines + ["Returns:"];
    lines := lines + ["    description"];
    assert lines == GoogleDocLines(name, params);
    return Join(lines);
  }

  /** The docstring's lines: the summary `<name>.`, a blank, `Args:` (even
      without parameters), one `    <p>: description` line per parameter in
      order, a blank, `Returns:` and `    description`; with a name and
      parameters free of line breaks, splitting the text gives them back. */
  lemma GoogleDocShape(name: string, params: seq<string>)
    requires NoNewline(name) && AllNoNewline(params)
    ensures var lines := GoogleDocLines(name, params);
      Split(Join(lines)) == lines
      && |lines| == 6 + |params|
      && lines[..3] == [name + ".", "", "Args:"]
      && (forall i :: 0 <= i < |params| ==> lines[3 + i] == "    " + params[i] + ": description")
      && lines[3 + |params|..] == ["", "Returns:", "    description"]
  {
    var lines := GoogleDocLines(name, params);
    assert AllNoNewline(lines) by {
      forall k | 0 <= k < |lines| ensures NoNewline(lines[k]) {
        if 3 <= k < 3 + |params| {
          assert lines[k] == ParamLine(params[k - 3]);
          assert NoNewline(params[k - 3]);
        }
      }
    }
    SplitJoin(lines);
  }

  /** `params`: the positional parameter names of a function, none for a class. */
  function ParamsOf(n: Node): seq<string>
  {
    if n.kind == FunctionDef then n.args else []
  }

  /** `indent + '"""' + doc.replace("\n", "\n" + indent) + '"""'`. */
  function DocBlock(n: Node): string
  {
    var indent := DocgenInjector.DocIndent(n);
    indent + StyledGenerator.Quotes
      + ReplaceNewlines(Join(GoogleDocLines(n.name, ParamsOf(n))), "\n" + indent)
      + StyledGenerator.Quotes
  }

  /** `(node.body[0].lineno - 1, doc_block)`. */
  function EntryOf(n: Node): Insert
  {
    Insert(BodyIndex(n), [DocBlock(n)])
  }

  /** The inserts collected over a walk, in walk order. */
  function Plan(walk: seq<Node>): seq<Insert>
  {
    PlanOf(walk, Picked, EntryOf)
  }

  /** The positions `ast.parse` gives a tree of that source: every picked
      node's first body statement is on a line of the source. */
  predicate Anchored(m: Module, source: string)
  {
    (forall n :: n in Walk(m) && Picked(n) ==> 1 <= n.bodyLine)
    && Within(Plan(Walk(m)), |SplitLines(source)|)
  }

  /** The buffer after injection: one element per original line, one per block. */
  function InjectedLines(m: Module, source: string): seq<string>
    requires Anchored(m, source)
  {
    Applied(SplitLines(source), Plan(Walk(m)))
  }

  /** `inject_docstrings(source)`. */
  function Injected(m: Module, source: string): string
    requires Anchored(m, source)
  {
    Join(InjectedLines(m, source))
  }

  /** `inject_docstrings(source)`: parse, split into lines, collect one block
      per picked node, insert them in `sorted(inserts, reverse=True)` order.
      A syntax error propagates. */
  method InjectDocstrings(parsed: Parsed, source: string) returns (r: Result<string, SyntaxError>)
    ensures parsed.Failure? ==> r == Failure(parsed.error)
    ensures parsed.Success? ==> r.Success?
    ensures parsed.Success? && Anchored(parsed.value, source) ==> r == Success(Injected(parsed.value, source))
  {
    if parsed.Failure? {
      return Failure(parsed.error);
    }
    var walk := Walk(parsed.value);
    var lines := SplitLines(source);
    var inserts: seq<Insert> := [];
    var i := 0;
    while i < |walk|
      invariant i <= |walk|
      invariant inserts == PlanOf(walk[..i], Picked, EntryOf)
      invariant OneLineEach(inserts)
    {
      var node := walk[i];
      PlanOfNext(walk, i, Picked, EntryOf);
      if (node.kind == FunctionDef || node.kind == ClassDef) && !HasDocstringScript(node) {
        var indent := Spaces(node.colOffset) + "    ";
        var params: seq<string> := [];
        if node.kind == FunctionDef {
          params := node.args;
        }
        var doc := GenerateGoogleDocstring(node.name, params);
        var docBlock := indent + StyledGenerator.Quotes + ReplaceNewlines(doc, "\n" + indent)
                        + StyledGenerator.Quotes;
        var entry := Insert(BodyIndex(node), [docBlock]);
        EntryIsPlanned(node, params, doc, entry);
        OneLineSnoc(inserts, entry);
        inserts := inserts + [entry];
      }
      i := i + 1;
    }
    assert walk[..i] == walk;
    lines := InsertEach(lines, inserts);
    return Success(Join(lines));
  }

  /** The insert the loop builds for a picked node is the planned one. */
  lemma EntryIsPlanned(n: Node, params: seq<string>, doc: string, entry: Insert)
    requires params == (if n.kind == FunctionDef then n.args else [])
    requires doc == Join(GoogleDocLines(n.name, params))
    requires entry == Insert(BodyIndex(n), [Spaces(n.colOffset) + "    " + StyledGenerator.Quotes
                               + ReplaceNewlines(doc, "\n" + (Spaces(n.colOffset) + "    "))
                               + StyledGenerator.Quotes])
    ensures entry == EntryOf(n)
  {
  }

  /** The lines added: one buffer element per picked node. */
  function AddedLines(n: Node): nat
  {
    if Picked(n) then 1 else 0
  }

  lemma {:induction false} CountIsAdded(walk: seq<Node>)
    ensures Count(walk, Picked) == Sum(walk, AddedLines)
  {
    if walk != [] {
      CountIsAdded(walk[..|walk| - 1]);
    }
  }

  /** The buffer grows by exactly one element per function or class of the
      tree that has no docstring at all. */
  lemma InjectedGrowth(m: Module, source: string)
    requires Anchored(m, source)
    ensures |Plan(Walk(m))| == Count(Preorder(m.body), Picked)
    ensures |InjectedLines(m, source)| == |SplitLines(source)| + Count(Preorder(m.body), Picked)
  {
    WalkCount(m, Picked);
    PlanOfSizes(Walk(m), Picked, EntryOf, AddedLines);
    CountIsAdded(Walk(m));
  }

  /** With no picked node, the output is `"\\n".join(source.splitlines())`. */
  lemma NothingMissing(m: Module, source: string)
    requires Count(Preorder(m.body), Picked) == 0
    ensures Anchored(m, source)
    ensures Injected(m, source) == Join(SplitLines(source))
  {
    WalkCount(m, Picked);
    CountNone(Walk(m), Picked);
    AppliedNothing(SplitLines(source));
  }

  /** Every original element survives unchanged, shifted down by the blocks
      inserted at or above it, and the original elements keep their order. */
  lemma InjectedKeepsLines(m: Module, source: string, i: nat, i': nat)
    requires Anchored(m, source) && i <= i' < |SplitLines(source)|
    ensures var plan := Plan(Walk(m));
      i + SizesUpTo(plan, i) <= i' + SizesUpTo(plan, i') < |InjectedLines(m, source)|
      && InjectedLines(m, source)[i + SizesUpTo(plan, i)] == SplitLines(source)[i]
      && InjectedLines(m, source)[i' + SizesUpTo(plan, i')] == SplitLines(source)[i']
      && (i < i' ==> i + SizesUpTo(plan, i) < i' + SizesUpTo(plan, i'))
  {
    var lines, plan := SplitLines(source), Plan(Walk(m));
    AppliedKeepsOrder(lines, plan, i, i');
    assert InjectedLines(m, source) == Applied(lines, plan);
  }

  /** Picked nodes whose block goes in at index `index`. */
  function BodyAt(index: nat): Node -> bool
  {
    (n: Node) => Picked(n) && BodyIndex(n) == index
  }

  /** A node's block lands immediately in front of the line of its first
      body statement and, when that is not the first line, immediately after
      the line before it; for every node that is the only picked one whose
      body starts on that line. */
  lemma BlockBeforeBody(m: Module, source: string, n: Node)
    requires Anchored(m, source) && n in Walk(m) && Picked(n)
    requires 1 <= n.bodyLine <= |SplitLines(source)|
    requires Count(Walk(m), BodyAt(n.bodyLine - 1)) == 1
    ensures var lines, out, e := SplitLines(source), InjectedLines(m, source), EntryOf(n);
      var p := e.at + SizesBelow(Plan(Walk(m)), e.at);
      p + 1 < |out|
      && out[p] == e.block[0]
      && out[p + 1] == lines[e.at]
      && (0 < e.at ==> out[p - 1] == lines[e.at - 1])
  {
    EntryShape();
    PlanLinePlaced(SplitLines(source), Walk(m), Picked, EntryOf, BodyAt(n.bodyLine - 1),
                   Plan(Walk(m)), n, EntryOf(n));
  }

  /** Every insert goes in at the first body line's index and holds one element. */
  lemma EntryShape()
    ensures forall x :: EntryOf(x).at == BodyIndex(x) && |EntryOf(x).block| == 1
  {
  }

  /** Every line after the first, prefixed with `indent`. */
  function IndentRest(lines: seq<string>, indent: string): seq<string>
  {
    if lines == [] then [] else [indent + lines[0]] + IndentRest(lines[1..], indent)
  }

  lemma {:induction false} IndentRestAt(lines: seq<string>, indent: string, k: nat)
    requires k < |lines|
    ensures |IndentRest(lines, indent)| == |lines|
    ensures IndentRest(lines, indent)[k] == indent + lines[k]
  {
    if k > 0 {
      IndentRestAt(lines[1..], indent, k - 1);
    } else {
      IndentRestLength(lines[1..], indent);
    }
  }

  lemma {:induction false} IndentRestLength(lines: seq<string>, indent: string)
    ensures |IndentRest(lines, indent)| == |lines|
  {
    if lines != [] {
      IndentRestLength(lines[1..], indent);
    }
  }

  /** Joining with a line break followed by `indent` is joining with a line
      break after indenting every line but the first. */
  lemma {:induction false} JoinWithIndent(lines: seq<string>, indent: string)
    requires lines != []
    ensures JoinWith(lines, "\n" + indent) == Join([lines[0]] + IndentRest(lines[1..], indent))
  {
    if |lines| > 1 {
      var tail := lines[1..];
      JoinWithIndent(tail, indent);
      JoinConsHead(indent, tail[0], IndentRest(tail[1..], indent));
      assert [indent + tail[0]] + IndentRest(tail[1..], indent) == IndentRest(tail, indent);
      assert ([lines[0]] + IndentRest(tail, indent))[1..] == IndentRest(tail, indent);
    } else {
      assert lines[1..] == [];
    }
  }

  /** The physical lines of a block: the docstring's lines, each after the
      first indented, the delimiter opening the first and closing the last. */
  function BlockLines(n: Node): seq<string>
  {
    var lines, indent := GoogleDocLines(n.name, ParamsOf(n)), DocgenInjector.DocIndent(n);
    var t := [indent + StyledGenerator.Quotes + lines[0]] + IndentRest(lines[1..], indent);
    t[..|t| - 1] + [t[|t| - 1] + StyledGenerator.Quotes]
  }

  lemma DocBlockIsJoin(n: Node)
    requires NoNewline(n.name) && AllNoNewline(n.args)
    ensures DocBlock(n) == Join(BlockLines(n))
  {
    var lines, indent := GoogleDocLines(n.name, ParamsOf(n)), DocgenInjector.DocIndent(n);
    GoogleDocShape(n.name, ParamsOf(n));
    ReplaceNewlinesJoin(lines, "\n" + indent);
    JoinWithIndent(lines, indent);
    var rest := IndentRest(lines[1..], indent);
    JoinConsHead(indent + StyledGenerator.Quotes, lines[0], rest);
    var t := [indent + StyledGenerator.Quotes + lines[0]] + rest;
    JoinSnoc(t, StyledGenerator.Quotes);
  }

  lemma BlockLinesAt(n: Node)
    ensures var b, lines, indent := BlockLines(n), GoogleDocLines(n.name, ParamsOf(n)), DocgenInjector.DocIndent(n);
      |b| == 6 + |ParamsOf(n)| == |lines|
      && b[0] == indent + StyledGenerator.Quotes + n.name + "."
      && (forall k :: 1 <= k < |b| - 1 ==> b[k] == indent + lines[k])
      && b[|b| - 1] == indent + "    description" + StyledGenerator.Quotes
  {
    var lines, indent := GoogleDocLines(n.name, ParamsOf(n)), DocgenInjector.DocIndent(n);
    var rest := IndentRest(lines[1..], indent);
    IndentRestLength(lines[1..], indent);
    var t := [indent + StyledGenerator.Quotes + lines[0]] + rest;
    var b := BlockLines(n);
    assert b == t[..|t| - 1] + [t[|t| - 1] + StyledGenerator.Quotes];
    forall k | 1 <= k < |b| - 1 ensures b[k] == indent + lines[k] {
      IndentRestAt(lines[1..], indent, k - 1);
    }
    IndentRestAt(lines[1..], indent, |lines| - 2);
    assert lines[|lines| - 1] == "    description";
  }

  /** The block is one buffer element spanning `6 + len(params)` lines of
      text: the first opens the docstring at `col_offset + 4` spaces with
      `<name>.`, every later line starts with those spaces and carries the
      next docstring line, and the last closes the docstring after
      `    description`. */
  lemma DocBlockLayout(n: Node)
    requires NoNewline(n.name) && AllNoNewline(n.args)
    ensures var b, lines, indent := BlockLines(n), GoogleDocLines(n.name, ParamsOf(n)), DocgenInjector.DocIndent(n);
      Split(DocBlock(n)) == b
      && |b| == 6 + |ParamsOf(n)| == |lines|
      && b[0] == indent + StyledGenerator.Quotes + n.name + "."
      && (forall k :: 1 <= k < |b| - 1 ==> b[k] == indent + lines[k])
      && b[|b| - 1] == indent + "    description" + StyledGenerator.Quotes
      && (forall k :: 1 <= k < |b| ==> StartsWith(b[k], Spaces(n.colOffset + 4)))
  {
    var b, lines, indent := BlockLines(n), GoogleDocLines(n.name, ParamsOf(n)), DocgenInjector.DocIndent(n);
    DocBlockIsJoin(n);
    BlockLinesAt(n);
    GoogleDocShape(n.name, ParamsOf(n));
    assert forall j :: 0 <= j < |indent| ==> indent[j] == ' ';
    assert AllNoNewline(b) by {
      forall k | 0 <= k < |b| ensures NoNewline(b[k]) {
        if k == 0 {
          assert b[0] == indent + (StyledGenerator.Quotes + lines[0]);
        } else if k < |b| - 1 {
          assert NoNewline(lines[k]);
        }
      }
    }
    forall k | 1 <= k < |b| ensures StartsWith(b[k], Spaces(n.colOffset + 4)) {
      assert b[k][..|indent|] == indent;
    }
    SplitJoin(b);
  }

  /** Whatever the script picks, the packaged injectors pick as well. */
  lemma PickedIsMissing(n: Node)
    requires Picked(n)
    ensures NeedsDocstring(n)
  {
  }

  const EmptyDocstring := Node(FunctionDef, "f", [], 1, 0, 2, Some(""), [])
  const Coroutine := Node(AsyncFunctionDef, "g", [], 1, 0, 2, None, [])

  /** The converse fails: an empty docstring counts as present here, and
      coroutines are not picked at all. */
  lemma SelectionNarrower()
    ensures NeedsDocstring(EmptyDocstring) && !Picked(EmptyDocstring)
    ensures NeedsDocstring(Coroutine) && !Picked(Coroutine)
  {
  }
}
