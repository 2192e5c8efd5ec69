/** The packaged coverage gate: `count_items` counts every function and class
    of a module, at any depth, and lists the undocumented ones. */
module CheckDocs {
  import opened Wrappers
  import opened Seqs
  import opened PyAst

  /** `isinstance(node, (ast.FunctionDef, ast.ClassDef))`: `async def` is not counted. */
  predicate IsCounted(n: Node)
  {
    n.kind == FunctionDef || n.kind == ClassDef
  }

  /** Counted, and `ast.get_docstring(node)` is truthy. */
  predicate IsDocumented(n: Node)
  {
    IsCounted(n) && HasTruthyDocstring(n)
  }

  /** Counted, and the docstring is absent or empty. */
  predicate IsMissing(n: Node)
  {
    IsCounted(n) && !HasTruthyDocstring(n)
  }

  /** `f"{filename} -> {name}"`. */
  function MissingEntry(filename: string, name: string): (s: string)
    ensures |s| == |filename| + 4 + |name|
    ensures s[..|filename|] == filename && s[|s| - |name|..] == name
  {
    filename + " -> " + name
  }

  /** The entries for the undocumented nodes of a walk, in walk order. */
  function MissingEntries(walk: seq<Node>, filename: string): seq<string>
  {
    if walk == [] then []
    else
      var last := walk[|walk| - 1];
      MissingEntries(walk[..|walk| - 1], filename)
        + (if IsMissing(last) then [MissingEntry(filename, last.name)] else [])
  }

  /** `(total, documented, missing)`. */
  datatype Tally = Tally(total: nat, documented: nat, missing: seq<string>)

  /** The tally `count_items` builds over the nodes `ast.walk` yields. */
  function TallyOf(walk: seq<Node>, filename: string): Tally
  {
    Tally(Count(walk, IsCounted), Count(walk, IsDocumented), MissingEntries(walk, filename))
  }

  /** `count_items(source, filename)`; a syntax error propagates. */
  method CountItems(parsed: Parsed, filename: string) returns (r: Result<Tally, SyntaxError>)
    ensures parsed.Failure? ==> r == Failure(parsed.error)
    ensures parsed.Success? ==> r == Success(TallyOf(Walk(parsed.value), filename))
  {
    if parsed.Failure? {
      return Failure(parsed.error);
    }
    var walk := Walk(parsed.value);
    var total := 0;
    var documented := 0;
    var missing: seq<string> := [];
    var i := 0;
    while i < |walk|
      invariant i <= |walk|
      invariant total == Count(walk[..i], IsCounted)
      invariant documented == Count(walk[..i], IsDocumented)
      invariant missing == MissingEntries(walk[..i], filename)
    {
      var node := walk[i];
      assert walk[..i + 1][..i] == walk[..i];
      if node.kind == FunctionDef || node.kind == ClassDef {
        total := total + 1;
        var name := node.name;
        if node.docstring.Some? && node.docstring.value != "" {
          documented := documented + 1;
        } else {
          missing := missing + [filename + " -> " + name];
        }
      }
      i := i + 1;
    }
    assert walk[..i] == walk;
    return Success(Tally(total, documented, missing));
  }

  /** Every counted node is either documented or listed as missing. */
  lemma {:induction false} TallyBalance(walk: seq<Node>, filename: string)
    ensures TallyOf(walk, filename).total == TallyOf(walk, filename).documented + |TallyOf(walk, filename).missing|
    ensures |MissingEntries(walk, filename)| == Count(walk, IsMissing)
  {
    if walk != [] {
      TallyBalance(walk[..|walk| - 1], filename);
    }
  }

  /** Reference definition: the missing list names the undocumented nodes,
      filtered from the walk and formatted one by one. */
  lemma {:induction false} MissingEntriesIsFilterMap(walk: seq<Node>, filename: string)
    ensures MissingEntries(walk, filename) == Map(Filter(walk, IsMissing), (n: Node) => MissingEntry(filename, n.name))
  {
    if walk != [] {
      var init, last := walk[..|walk| - 1], walk[|walk| - 1];
      var tail := if IsMissing(last) then [last] else [];
      MissingEntriesIsFilterMap(init, filename);
      assert Filter(walk, IsMissing) == Filter(init, IsMissing) + tail;
      MapAppend(Filter(init, IsMissing), tail, (n: Node) => MissingEntry(filename, n.name));
    }
  }

  /** The walk reaches every depth: the counts are those of the whole tree,
      nested functions and methods included. */
  lemma CountsWholeTree(m: Module, filename: string)
    ensures TallyOf(Walk(m), filename).total == Count(Preorder(m.body), IsCounted)
    ensures TallyOf(Walk(m), filename).documented == Count(Preorder(m.body), IsDocumented)
    ensures |TallyOf(Walk(m), filename).missing| == Count(Preorder(m.body), IsMissing)
  {
    WalkCount(m, IsCounted);
    WalkCount(m, IsDocumented);
    WalkCount(m, IsMissing);
    TallyBalance(Walk(m), filename);
  }

  /** The tally of one node. */
  lemma TallyOne(n: Node, filename: string)
    ensures TallyOf([n], filename)
         == Tally(if IsCounted(n) then 1 else 0, if IsDocumented(n) then 1 else 0,
                  if IsMissing(n) then [MissingEntry(filename, n.name)] else [])
  {
    assert [n][..0] == [];
    assert Count([n], IsCounted) == (if IsCounted(n) then 1 else 0);
    assert Count([n], IsDocumented) == (if IsDocumented(n) then 1 else 0);
    assert MissingEntries([n], filename) == (if IsMissing(n) then [MissingEntry(filename, n.name)] else []);
  }

  /** The missing lists of two stretches of a walk concatenate. */
  lemma {:induction false} MissingEntriesAppend(a: seq<Node>, b: seq<Node>, filename: string)
    ensures MissingEntries(a + b, filename) == MissingEntries(a, filename) + MissingEntries(b, filename)
    decreases |b|
  {
    if b == [] {
      assert a + b == a;
    } else {
      assert (a + b)[..|a + b| - 1] == a + b[..|b| - 1];
      MissingEntriesAppend(a, b[..|b| - 1], filename);
    }
  }

  /** Tallies add up along the walk: counts add, missing lists concatenate. */
  lemma TallyAppend(a: seq<Node>, b: seq<Node>, filename: string)
    ensures TallyOf(a + b, filename)
         == Tally(TallyOf(a, filename).total + TallyOf(b, filename).total,
                  TallyOf(a, filename).documented + TallyOf(b, filename).documented,
                  TallyOf(a, filename).missing + TallyOf(b, filename).missing)
  {
    CountAppend(a, b, IsCounted);
    CountAppend(a, b, IsDocumented);
    MissingEntriesAppend(a, b, filename);
  }

  /** Empty source: nothing counted, nothing missing. */
  lemma EmptySource(filename: string)
    ensures TallyOf(Walk(Module([])), filename) == Tally(0, 0, [])
  {
  }

  const NestedPass := Node(Other, "", [], 6, 8, 0, None, [])
  const NestedInner := Node(FunctionDef, "inner", [], 5, 4, 6, None, [NestedPass])
  const NestedReturn := Node(Other, "", [], 8, 4, 0, None, [])
  const NestedOuter := Node(FunctionDef, "outer", [], 2, 0, 3, Some("Outer function docstring"), [NestedInner, NestedReturn])

  /** The walk goes level by level: `outer`, then its children, then `inner`'s. */
  lemma NestedWalk()
    ensures Walk(Module([NestedOuter])) == [NestedOuter, NestedInner, NestedReturn, NestedPass]
  {
    var outer, inner, ret, pass := NestedOuter, NestedInner, NestedReturn, NestedPass;
    WalkQueueStep([pass], []);
    WalkQueueStep([ret, pass], [pass]);
    WalkQueueStep([inner, ret], [ret, pass]);
    WalkQueueStep([outer], [inner, ret]);
  }

  /** `outer` documented, `inner` nested in it without a docstring: two
      counted, one documented, `inner` reported. */
  lemma NestedMissingScenario()
    ensures TallyOf(Walk(Module([NestedOuter])), "nested_missing.py") == Tally(2, 1, ["nested_missing.py -> inner"])
  {
    var outer, inner, ret, pass := NestedOuter, NestedInner, NestedReturn, NestedPass;
    var f := "nested_missing.py";
    NestedWalk();
    assert [outer, inner, ret, pass] == [outer] + [inner] + [ret] + [pass];
    assert TallyOf([outer] + [inner] + [ret] + [pass], f) == Tally(2, 1, [MissingEntry(f, "inner")]) by {
      TallyOne(outer, f);
      TallyOne(inner, f);
      TallyOne(ret, f);
      TallyOne(pass, f);
      TallyAppend([outer], [inner], f);
      TallyAppend([outer] + [inner], [ret], f);
      TallyAppend([outer] + [inner] + [ret], [pass], f);
    }
    assert MissingEntry(f, "inner") == "nested_missing.py -> inner";
  }

  const DecoratorReturn := Node(Other, "", [], 3, 4, 0, None, [])
  const Decorator := Node(FunctionDef, "decorator", ["func"], 2, 0, 3, None, [DecoratorReturn])
  const DecoratedPass := Node(Other, "", [], 8, 4, 0, None, [])
  const Decorated := Node(FunctionDef, "my_function", [], 6, 0, 7, Some("This function has a docstring."), [DecoratedPass])

  /** The walk visits both top-level functions before their bodies. */
  lemma DecoratedWalk()
    ensures Walk(Module([Decorator, Decorated])) == [Decorator, Decorated, DecoratorReturn, DecoratedPass]
  {
    var decorator, decorated, ret, pass := Decorator, Decorated, DecoratorReturn, DecoratedPass;
    WalkQueueStep([pass], []);
    WalkQueueStep([ret, pass], [pass]);
    WalkQueueStep([decorated, ret], [ret, pass]);
    WalkQueueStep([decorator, decorated], [decorated, ret]);
  }

  /** A decorated, documented function counts as documented; the undocumented
      decorator is the one reported. */
  lemma DecoratedScenario()
    ensures TallyOf(Walk(Module([Decorator, Decorated])), "decorated.py") == Tally(2, 1, ["decorated.py -> decorator"])
  {
    var decorator, decorated, ret, pass := Decorator, Decorated, DecoratorReturn, DecoratedPass;
    var f := "decorated.py";
    DecoratedWalk();
    assert [decorator, decorated, ret, pass] == [decorator] + [decorated] + [ret] + [pass];
    assert TallyOf([decorator] + [decorated] + [ret] + [pass], f) == Tally(2, 1, [MissingEntry(f, "decorator")]) by {
      TallyOne(decorator, f);
      TallyOne(decorated, f);
      TallyOne(ret, f);
      TallyOne(pass, f);
      TallyAppend([decorator], [decorated], f);
      TallyAppend([decorator] + [decorated], [ret], f);
      TallyAppend([decorator] + [decorated] + [ret], [pass], f);
    }
    assert MissingEntry(f, "decorator") == "decorated.py -> decorator";
  }

  const Coroutine := Node(AsyncFunctionDef, "fetch", [], 1, 0, 2, Some("Fetch."), [])
  const BlankClass := Node(ClassDef, "Blank", [], 4, 0, 5, Some(""), [])

  /** An `async def`, and a class whose docstring is blank: the coroutine is
      not counted, the class is counted and reported as missing. */
  lemma AsyncAndBlankScenario()
    ensures TallyOf(Walk(Module([Coroutine, BlankClass])), "a.py") == Tally(1, 0, ["a.py -> Blank"])
  {
    var fetch, blank := Coroutine, BlankClass;
    assert WalkQueue([blank]) == [blank] by {
      assert [blank][1..] + blank.body == [];
    }
    assert Walk(Module([fetch, blank])) == [fetch] + [blank] by {
      assert [fetch, blank][1..] + fetch.body == [blank];
    }
    TallyOne(fetch, "a.py");
    TallyOne(blank, "a.py");
    TallyAppend([fetch], [blank], "a.py");
    assert MissingEntry("a.py", "Blank") == "a.py -> Blank";
  }
}
