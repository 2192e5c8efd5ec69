/** The declaration tree that `ast.parse` produces, reduced to what the tool
    reads, and `ast.walk` over it. */
module PyAst {
  import opened Wrappers
  import opened Seqs

  /** The AST class of a node; `Other` stands for every node class that is not
      a declaration (statements, except handlers, expressions, ...). */
  datatype Kind = FunctionDef | AsyncFunctionDef | ClassDef | Other

  /** One AST node.  `args` are the positional parameter names (`args.args`),
      `lineno` and `colOffset` locate the header, `bodyLine` is `body[0].lineno`,
      and `docstring` is what `ast.get_docstring` returns: the cleaned text of a
      leading string-literal statement, or None.  `body` holds the node's child
      nodes in `ast.iter_child_nodes` order; for a declaration, its body
      statements. */
  datatype Node = Node(
    kind: Kind,
    name: string,
    args: seq<string>,
    lineno: nat,
    colOffset: nat,
    bodyLine: nat,
    docstring: Option<string>,
    body: seq<Node>)

  /** The root `ast.Module`: its top-level statements. */
  datatype Module = Module(body: seq<Node>)

  /** What `ast.parse` raises on malformed source. */
  datatype SyntaxError = SyntaxError(message: string, line: nat)

  /** The outcome of `ast.parse(source)`. */
  type Parsed = Result<Module, SyntaxError>

  /** `node.__class__.__name__`. */
  function KindName(k: Kind): string
  {
    match k
    case FunctionDef => "FunctionDef"
    case AsyncFunctionDef => "AsyncFunctionDef"
    case ClassDef => "ClassDef"
    case Other => "AST"
  }

  /** `ast.get_docstring(node)` is truthy: present and not empty once cleaned. */
  predicate HasTruthyDocstring(n: Node)
  {
    n.docstring.Some? && n.docstring.value != ""
  }

  /** `ast.get_docstring(node) is not None`. */
  predicate HasDocstring(n: Node)
  {
    n.docstring.Some?
  }

  /** Number of nodes in a forest. */
  function SizeOf(ns: seq<Node>): nat
  {
    if ns == [] then 0 else 1 + SizeOf(ns[0].body) + SizeOf(ns[1..])
  }

  lemma {:induction false} SizeOfAppend(a: seq<Node>, b: seq<Node>)
    ensures SizeOf(a + b) == SizeOf(a) + SizeOf(b)
    decreases |a|
  {
    if a == [] {
      assert a + b == b;
    } else {
      assert (a + b)[0] == a[0];
      assert (a + b)[1..] == a[1..] + b;
      SizeOfAppend(a[1..], b);
    }
  }

  /** `ast.walk` from a queue of pending nodes: breadth first, each node's
      children queued behind the nodes already waiting. */
  function WalkQueue(queue: seq<Node>): seq<Node>
    decreases SizeOf(queue)
  {
    if queue == [] then []
    else
      SizeOfAppend(queue[1..], queue[0].body);
      [queue[0]] + WalkQueue(queue[1..] + queue[0].body)
  }

  /** One step of the walk: the head of the queue, then the walk of the rest
      with the head's children queued behind it. */
  lemma WalkQueueStep(queue: seq<Node>, rest: seq<Node>)
    requires queue != [] && queue[1..] + queue[0].body == rest
    ensures WalkQueue(queue) == [queue[0]] + WalkQueue(rest)
  {
  }

  /** `ast.walk(tree)` without the root `Module` node, which is never a declaration. */
  function Walk(m: Module): seq<Node>
  {
    WalkQueue(m.body)
  }

  /** Depth-first listing of a forest: the reference for "every node at any depth". */
  function Preorder(ns: seq<Node>): seq<Node>
  {
    if ns == [] then [] else [ns[0]] + Preorder(ns[0].body) + Preorder(ns[1..])
  }

  lemma {:induction false} PreorderAppend(a: seq<Node>, b: seq<Node>)
    ensures Preorder(a + b) == Preorder(a) + Preorder(b)
    decreases |a|
  {
    if a == [] {
      assert a + b == b;
    } else {
      assert (a + b)[0] == a[0];
      assert (a + b)[1..] == a[1..] + b;
      PreorderAppend(a[1..], b);
    }
  }

  /** The walk visits every node of the forest, at any depth, exactly once. */
  lemma {:induction false} WalkQueueVisitsAll(queue: seq<Node>)
    ensures multiset(WalkQueue(queue)) == multiset(Preorder(queue))
    decreases SizeOf(queue)
  {
    if queue != [] {
      var head := queue[0];
      var next := queue[1..] + head.body;
      SizeOfAppend(queue[1..], head.body);
      WalkQueueVisitsAll(next);
      PreorderAppend(queue[1..], head.body);
      calc {
        multiset(WalkQueue(queue));
        multiset([head]) + multiset(WalkQueue(next));
        multiset([head]) + multiset(Preorder(queue[1..])) + multiset(Preorder(head.body));
        multiset([head] + Preorder(head.body) + Preorder(queue[1..]));
      }
    }
  }

  lemma WalkVisitsAll(m: Module)
    ensures multiset(Walk(m)) == multiset(Preorder(m.body))
  {
    WalkQueueVisitsAll(m.body);
  }

  /** Counting over the walk is counting over the whole tree. */
  lemma WalkCount(m: Module, p: Node -> bool)
    ensures Count(Walk(m), p) == Count(Preorder(m.body), p)
  {
    WalkVisitsAll(m);
    CountPermutation(Walk(m), Preorder(m.body), p);
  }
}
