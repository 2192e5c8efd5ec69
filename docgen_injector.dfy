/** The packaged injector: every function, coroutine and class whose
    docstring is absent or empty gets a multi-line Google-style block,
    inserted right after its header line. */
module DocgenInjector {
  import opened Wrappers
  import opened Seqs
  import opened Text
  import opened PyAst
  import opened Splice
  import opened Injection
  import StyledGenerator

  /** `" " * col_offset + " " * 4`: one level deeper than the header. */
  function DocIndent(n: Node): (r: string)
    ensures r == Spaces(n.colOffset + 4)
  {
    Spaces(n.colOffset) + "    "
  }

  function ArgLine(indent: string): string -> string
  {
    (arg: string) => indent + "    " + arg + ": Description."
  }

  function ClassBlock(n: Node): seq<string>
  {
    var di := DocIndent(n);
    [di + StyledGenerator.Quotes, di + n.name + " class.", di + StyledGenerator.Quotes]
  }

  function FunctionHead(di: string, name: string): seq<string>
  {
    [di + StyledGenerator.Quotes, di + name + " function.", "", di + "Args:"]
  }

  function FunctionTail(di: string): seq<string>
  {
    ["", di + "Returns:", di + "    Description.", di + StyledGenerator.Quotes]
  }

  function FunctionBlock(n: Node): seq<string>
  {
    var di := DocIndent(n);
    FunctionHead(di, n.name) + Map(n.args, ArgLine(di)) + FunctionTail(di)
  }

  /** The block built for a node: three lines for a class, `8 + len(args)`
      for a function or coroutine. */
  function BlockOf(n: Node): (r: seq<string>)
    ensures |r| == if n.kind == ClassDef then 3 else 8 + |n.args|
  {
    if n.kind == ClassDef then ClassBlock(n) else FunctionBlock(n)
  }

  /** `(node.lineno, docstring)`: inserting at index `lineno` puts the block
      after the header line, which is line `lineno` counted from one. */
  function EntryOf(n: Node): Insert
  {
    Insert(n.lineno, BlockOf(n))
  }

  /** The inserts collected over a walk, in walk order. */
  function Plan(walk: seq<Node>): seq<Insert>
  {
    PlanOf(walk, NeedsDocstring, EntryOf)
  }

  /** Every insert index names a line of the source, or its end: true of
      any tree `ast.parse` builds from that source. */
  predicate Anchored(m: Module, source: string)
  {
    Within(Plan(Walk(m)), |SplitLines(source)|)
  }

  /** The buffer after injection. */
  function InjectedLines(m: Module, source: string): seq<string>
    requires Anchored(m, source)
  {
    Applied(SplitLines(source), Plan(Walk(m)))
  }

  /** `inject_docstrings(source_code, style)`: `"\n".join(lines)` afterwards. */
  function Injected(m: Module, source: string): string
    requires Anchored(m, source)
  {
    Join(InjectedLines(m, source))
  }

  /** The block lines for one node needing a docstring (lines 21-46). */
  method BuildBlock(node: Node) returns (docstring: seq<string>)
    requires Handled(node)
    ensures docstring == BlockOf(node)
  {
    var indent := Spaces(node.colOffset);
    var docIndent := indent + "    ";
    if node.kind == ClassDef {
      docstring := [docIndent + StyledGenerator.Quotes, docIndent + node.name + " class.",
                    docIndent + StyledGenerator.Quotes];
    } else {
      docstring := [docIndent + StyledGenerator.Quotes, docIndent + node.name + " function.", "",
                    docIndent + "Args:"];
      var a := 0;
      while a < |node.args|
        invariant a <= |node.args|
        invariant docstring == FunctionHead(docIndent, node.name) + Map(node.args[..a], ArgLine(docIndent))
      {
        assert node.args[..a + 1][..a] == node.args[..a];
        docstring := docstring + [docIndent + "    " + node.args[a] + ": Description."];
        a := a + 1;
      }
      assert node.args[..a] == node.args;
      docstring := docstring + ["", docIndent + "Returns:", docIndent + "    Description.",
                                docIndent + StyledGenerator.Quotes];
    }
  }

  /** `for line in reversed(doc_lines): lines.insert(lineno, line)`: the
      block ends up whole, in its own order, in front of index `lineno`. */
  method InsertBlock(lines: seq<string>, lineno: nat, docLines: seq<string>) returns (r: seq<string>)
    ensures |r| == |lines| + |docLines|
    ensures lineno <= |lines| ==> r == BlockInsert(lines, lineno, docLines)
  {
    r := lines;
    var j := |docLines|;
    while j > 0
      invariant 0 <= j <= |docLines|
      invariant |r| == |lines| + |docLines| - j
      invariant lineno <= |lines| ==> r == lines[..lineno] + docLines[j..] + lines[lineno..]
    {
      j := j - 1;
      if lineno <= |lines| {
        assert docLines[j..] == [docLines[j]] + docLines[j + 1..];
        assert r[..lineno] == lines[..lineno];
        assert r[lineno..] == docLines[j + 1..] + lines[lineno..];
      }
      r := ListInsert(r, lineno, docLines[j]);
    }
    assert docLines[0..] == docLines;
  }

  /** `inject_docstrings(source_code, style)`: parse, collect the inserts over
      the walk, then apply them in `sorted(inserts, reverse=True)` order.  A
      syntax error propagates; `style` is never read. */
  method InjectDocstrings(parsed: Parsed, source: string, style: string := "Google")
    returns (r: Result<string, SyntaxError>)
    ensures parsed.Failure? ==> r == Failure(parsed.error)
    ensures parsed.Success? ==> r.Success?
    ensures parsed.Success? && Anchored(parsed.value, source) ==> r == Success(Injected(parsed.value, source))
  {
    if parsed.Failure? {
      return Failure(parsed.error);
    }
    var walk := Walk(parsed.value);
    var original := SplitLines(source);
    var lines := original;
    var inserts: seq<Insert> := [];
    var i := 0;
    while i < |walk|
      invariant i <= |walk|
      invariant inserts == PlanOf(walk[..i], NeedsDocstring, EntryOf)
    {
      var node := walk[i];
      PlanOfNext(walk, i, NeedsDocstring, EntryOf);
      if node.kind == FunctionDef || node.kind == AsyncFunctionDef || node.kind == ClassDef {
        if !(node.docstring.Some? && node.docstring.value != "") {
          var docstring := BuildBlock(node);
          var insertPosition := node.lineno;
          inserts := inserts + [Insert(insertPosition, docstring)];
        }
      }
      i := i + 1;
    }
    assert walk[..i] == walk;
    lines := ApplyInserts(original, inserts);
    return Success(Join(lines));
  }

  /** `for lineno, doc_lines in sorted(inserts, reverse=True): ...`: each
      block inserted whole, highest position first. */
  method ApplyInserts(original: seq<string>, inserts: seq<Insert>) returns (lines: seq<string>)
    ensures Within(inserts, |original|) ==> lines == Applied(original, inserts)
  {
    lines := original;
    var ordered := SortDescending(inserts);
    SortDescendingSorted(inserts);
    ghost var within := Within(inserts, |original|);
    if within {
      SortDescendingWithin(inserts, |original|);
      AppliedFirstNone(original, ordered);
    }
    var k := 0;
    while k < |ordered|
      invariant k <= |ordered|
      invariant within ==> Within(ordered, |original|) && lines == AppliedFirst(original, ordered, k)
    {
      if within {
        AppliedFirstStep(original, ordered, k);
      }
      lines := InsertBlock(lines, ordered[k].at, ordered[k].block);
      k := k + 1;
    }
    if within {
      AppliedFirstAll(original, inserts);
    }
  }

  /** The lines a node's block adds: 3 for an undocumented class,
      `8 + len(args)` for an undocumented function or coroutine, else none. */
  function AddedLines(n: Node): nat
  {
    if !NeedsDocstring(n) then 0 else if n.kind == ClassDef then 3 else 8 + |n.args|
  }

  /** One insert per handled node of the tree whose docstring is falsy. */
  lemma PlanCount(m: Module)
    ensures |Plan(Walk(m))| == Count(Preorder(m.body), NeedsDocstring)
  {
    WalkCount(m, NeedsDocstring);
  }

  /** The buffer grows by exactly the blocks' lines: 3 per undocumented
      class and `8 + len(args)` per undocumented function, at any depth. */
  lemma InjectedGrowth(m: Module, source: string)
    requires Anchored(m, source)
    ensures |InjectedLines(m, source)| == |SplitLines(source)| + Sum(Preorder(m.body), AddedLines)
  {
    PlanOfSizes(Walk(m), NeedsDocstring, EntryOf, AddedLines);
    WalkSum(m, AddedLines);
  }

  /** With every handled node documented, nothing is inserted: the output is
      `"\n".join(source.splitlines())`. */
  lemma NothingMissing(m: Module, source: string)
    requires Count(Preorder(m.body), NeedsDocstring) == 0
    ensures Anchored(m, source)
    ensures Injected(m, source) == Join(SplitLines(source))
  {
    PlanCount(m);
    AppliedNothing(SplitLines(source));
  }

  /** Every original line survives unchanged, shifted down by the blocks
      inserted at or above it, and the original lines keep their order. */
  lemma InjectedKeepsLines(m: Module, source: string, i: nat, i': nat)
    requires Anchored(m, source) && i <= i' < |SplitLines(source)|
    ensures var plan := Plan(Walk(m));
      i + SizesUpTo(plan, i) <= i' + SizesUpTo(plan, i') < |InjectedLines(m, source)|
      && InjectedLines(m, source)[i + SizesUpTo(plan, i)] == SplitLines(source)[i]
      && InjectedLines(m, source)[i' + SizesUpTo(plan, i')] == SplitLines(source)[i']
      && (i < i' ==> i + SizesUpTo(plan, i) < i' + SizesUpTo(plan, i'))
  {
    AppliedKeepsOrder(SplitLines(source), Plan(Walk(m)), i, i');
  }

  /** Undocumented handled nodes whose header is on line `p`. */
  function HeaderOn(p: nat): Node -> bool
  {
    (n: Node) => NeedsDocstring(n) && n.lineno == p
  }

  /** A node's block lands immediately after its header line (line `lineno`,
      counted from one) and, when that is not the last line, immediately
      before the line that followed the header; this holds for every node
      that is the only undocumented one whose header is on that line. */
  lemma BlockAfterHeader(m: Module, source: string, n: Node, k: nat)
    requires Anchored(m, source) && n in Walk(m) && NeedsDocstring(n) && 0 < n.lineno <= |SplitLines(source)|
    requires Count(Walk(m), HeaderOn(n.lineno)) == 1 && k < |BlockOf(n)|
    ensures var lines, out, e := SplitLines(source), InjectedLines(m, source), EntryOf(n);
      var p := e.at + SizesBelow(Plan(Walk(m)), e.at);
      p + |e.block| <= |out|
      && out[p - 1] == lines[e.at - 1]
      && out[p + k] == e.block[k]
      && (e.at < |lines| ==> p + |e.block| < |out| && out[p + |e.block|] == lines[e.at])
  {
    PlanBlockPlaced(SplitLines(source), Walk(m), NeedsDocstring, EntryOf, HeaderOn(n.lineno),
                    Plan(Walk(m)), n, EntryOf(n), k);
  }

  /** Block layout: the delimiter first and last, indented `col_offset + 4`
      spaces like every non-empty line; a class block is the delimiter,
      `<name> class.` and the delimiter; a function block names the function,
      has an `Args:` line followed by one `<arg>: Description.` line per
      positional argument in order, and its only empty lines are the two
      separators before `Args:` and before `Returns:`. */
  lemma BlockLayout(n: Node)
    ensures var b, di := BlockOf(n), DocIndent(n);
      b[0] == di + StyledGenerator.Quotes && b[|b| - 1] == di + StyledGenerator.Quotes
      && (forall k :: 0 <= k < |b| && b[k] != "" ==> StartsWith(b[k], Spaces(n.colOffset + 4)))
      && (n.kind == ClassDef ==> b[1] == di + n.name + " class.")
      && (n.kind != ClassDef ==>
            b[1] == di + n.name + " function." && b[3] == di + "Args:"
            && (forall i :: 0 <= i < |n.args| ==> b[4 + i] == di + "    " + n.args[i] + ": Description.")
            && (forall k :: 0 <= k < |b| ==> (b[k] == "" <==> k == 2 || k == |b| - 4)))
  {
    var b, di := BlockOf(n), DocIndent(n);
    forall k | 0 <= k < |b| && b[k] != "" ensures StartsWith(b[k], Spaces(n.colOffset + 4)) {
      if n.kind != ClassDef && 4 <= k < 4 + |n.args| {
        assert b[k] == ArgLine(di)(n.args[k - 4]);
      }
      assert b[k][..|di|] == di;
    }
    if n.kind != ClassDef {
      forall k | 0 <= k < |b| ensures b[k] == "" <==> k == 2 || k == |b| - 4 {
        if k != 2 && k != |b| - 4 {
          if 4 <= k < 4 + |n.args| {
            assert b[k] == ArgLine(di)(n.args[k - 4]);
          }
          assert |b[k]| >= |di|;
        }
      }
    }
  }
}
