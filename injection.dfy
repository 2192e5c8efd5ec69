/** What the three injectors share: the list of inserts collected over
    `ast.walk`, one per node that needs a docstring, in walk order. */
module Injection {
  import opened Seqs
  import opened PyAst
  import opened Splice

  /** `isinstance(node, (ast.FunctionDef, ast.AsyncFunctionDef, ast.ClassDef))`. */
  predicate Handled(n: Node)
  {
    n.kind == FunctionDef || n.kind == AsyncFunctionDef || n.kind == ClassDef
  }

  /** Handled, and `ast.get_docstring(node)` is falsy: absent or empty. */
  predicate NeedsDocstring(n: Node)
  {
    Handled(n) && !HasTruthyDocstring(n)
  }

  /** `node.body[0].lineno - 1`: the index of the first body statement's line.
      `ast` numbers lines from one, so for a parsed tree it is never negative. */
  function BodyIndex(n: Node): nat
  {
    if n.bodyLine > 0 then n.bodyLine - 1 else 0
  }

  /** The inserts a walk collects: `entry(node)` for every node `needs` picks. */
  function PlanOf(walk: seq<Node>, needs: Node -> bool, entry: Node -> Insert): (r: seq<Insert>)
    ensures |r| == Count(walk, needs)
  {
    if walk == [] then []
    else
      var last := walk[|walk| - 1];
      PlanOf(walk[..|walk| - 1], needs, entry) + (if needs(last) then [entry(last)] else [])
  }

  /** Reference definition: the picked nodes, in walk order, each made an insert. */
  lemma {:induction false} PlanOfIsFilterMap(walk: seq<Node>, needs: Node -> bool, entry: Node -> Insert)
    ensures PlanOf(walk, needs, entry) == Map(Filter(walk, needs), entry)
  {
    if walk != [] {
      var init, last := walk[..|walk| - 1], walk[|walk| - 1];
      var tail := if needs(last) then [last] else [];
      PlanOfIsFilterMap(init, needs, entry);
      assert Filter(walk, needs) == Filter(init, needs) + tail;
      MapAppend(Filter(init, needs), tail, entry);
    }
  }

  /** The loop's next node adds its insert, when it is picked. */
  lemma PlanOfNext(walk: seq<Node>, i: nat, needs: Node -> bool, entry: Node -> Insert)
    requires i < |walk|
    ensures PlanOf(walk[..i + 1], needs, entry)
         == PlanOf(walk[..i], needs, entry) + (if needs(walk[i]) then [entry(walk[i])] else [])
  {
    assert walk[..i + 1][..i] == walk[..i];
  }

  /** Collecting over two stretches of a walk concatenates the inserts. */
  lemma {:induction false} PlanOfAppend(a: seq<Node>, b: seq<Node>, needs: Node -> bool, entry: Node -> Insert)
    ensures PlanOf(a + b, needs, entry) == PlanOf(a, needs, entry) + PlanOf(b, needs, entry)
    decreases |b|
  {
    if b == [] {
      assert a + b == a;
    } else {
      assert (a + b)[..|a + b| - 1] == a + b[..|b| - 1];
      PlanOfAppend(a, b[..|b| - 1], needs, entry);
    }
  }

  /** Every picked node of the walk contributes its insert. */
  lemma PlanOfHas(walk: seq<Node>, needs: Node -> bool, entry: Node -> Insert, n: Node)
    requires n in walk && needs(n)
    ensures entry(n) in PlanOf(walk, needs, entry)
  {
    PlanOfIsFilterMap(walk, needs, entry);
    FilterKeeps(walk, needs, n);
    var f := Filter(walk, needs);
    var k :| 0 <= k < |f| && f[k] == n;
    assert Map(f, entry)[k] == entry(n);
  }

  /** The lines the blocks of a walk add, counted node by node. */
  lemma {:induction false} PlanOfSizes(walk: seq<Node>, needs: Node -> bool, entry: Node -> Insert, size: Node -> nat)
    requires forall n :: size(n) == (if needs(n) then |entry(n).block| else 0)
    ensures Sizes(PlanOf(walk, needs, entry)) == Sum(walk, size)
  {
    if walk != [] {
      var init, last := walk[..|walk| - 1], walk[|walk| - 1];
      PlanOfSizes(init, needs, entry, size);
      var tail := if needs(last) then [entry(last)] else [];
      SumAppend(PlanOf(init, needs, entry), tail, BlockSize);
      assert tail != [] ==> tail[..0] == [];
    }
  }

  /** The inserts sharing index `p` are those of the picked nodes whose
      entry has index `p`. */
  lemma {:induction false} PlanOfAnchors(walk: seq<Node>, needs: Node -> bool, entry: Node -> Insert,
                                         at: Node -> bool, p: nat)
    requires forall n :: at(n) == (needs(n) && entry(n).at == p)
    ensures Count(PlanOf(walk, needs, entry), AnchoredAt(p)) == Count(walk, at)
  {
    if walk != [] {
      var init, last := walk[..|walk| - 1], walk[|walk| - 1];
      PlanOfAnchors(init, needs, entry, at, p);
      var tail := if needs(last) then [entry(last)] else [];
      CountAppend(PlanOf(init, needs, entry), tail, AnchoredAt(p));
      assert tail != [] ==> tail[..0] == [];
    }
  }

  /** Over `ast.walk` the added lines are those of the whole tree. */
  lemma WalkSum(m: Module, f: Node -> nat)
    ensures Sum(Walk(m), f) == Sum(Preorder(m.body), f)
  {
    WalkVisitsAll(m);
    SumPermutation(Walk(m), Preorder(m.body), f);
  }

  /** The block of a picked node that no other picked node shares an index
      with lands at its index, shifted by the blocks placed above it: right
      after the original line before that index and right before the
      original line at it. */
  lemma PlanBlockPlaced(lines: seq<string>, walk: seq<Node>, needs: Node -> bool, entry: Node -> Insert,
                        sharing: Node -> bool, plan: seq<Insert>, n: Node, e: Insert, k: nat)
    requires plan == PlanOf(walk, needs, entry) && Within(plan, |lines|)
    requires n in walk && needs(n) && entry(n) == e
    requires forall x :: sharing(x) == (needs(x) && entry(x).at == e.at)
    requires Count(walk, sharing) == 1 && k < |e.block|
    ensures e.at + SizesBelow(plan, e.at) + |e.block| <= |Applied(lines, plan)|
    ensures Applied(lines, plan)[e.at + SizesBelow(plan, e.at) + k] == e.block[k]
    ensures 0 < e.at <= |lines| ==> Applied(lines, plan)[e.at + SizesBelow(plan, e.at) - 1] == lines[e.at - 1]
    ensures e.at < |lines| ==> e.at + SizesBelow(plan, e.at) + |e.block| < |Applied(lines, plan)|
                               && Applied(lines, plan)[e.at + SizesBelow(plan, e.at) + |e.block|] == lines[e.at]
  {
    PlanOfHas(walk, needs, entry, n);
    PlanOfAnchors(walk, needs, entry, sharing, e.at);
    AppliedPlacesBlock(lines, plan, e, k);
    if 0 < e.at <= |lines| {
      AppliedBlockFollowsLine(lines, plan, e);
    }
    if e.at < |lines| {
      AppliedBlockPrecedesLine(lines, plan, e);
    }
  }

  /** For a one-line block: the line lands at its index, shifted by the
      blocks placed above it, between the original lines around the index. */
  lemma PlanLinePlaced(lines: seq<string>, walk: seq<Node>, needs: Node -> bool, entry: Node -> Insert,
                       sharing: Node -> bool, plan: seq<Insert>, n: Node, e: Insert)
    requires plan == PlanOf(walk, needs, entry) && Within(plan, |lines|)
    requires n in walk && needs(n) && entry(n) == e
    requires forall x :: sharing(x) == (needs(x) && entry(x).at == e.at)
    requires Count(walk, sharing) == 1 && |e.block| == 1 && e.at < |lines|
    ensures var p := e.at + SizesBelow(plan, e.at);
      p + 1 < |Applied(lines, plan)|
      && Applied(lines, plan)[p] == e.block[0]
      && Applied(lines, plan)[p + 1] == lines[e.at]
      && (0 < e.at ==> Applied(lines, plan)[p - 1] == lines[e.at - 1])
  {
    var p := e.at + SizesBelow(plan, e.at);
    PlanBlockPlaced(lines, walk, needs, entry, sharing, plan, n, e, 0);
    assert p + |e.block| == p + 1;
  }

  /** Every collected insert holds exactly one buffer element. */
  predicate OneLineEach(plan: seq<Insert>)
  {
    forall k :: 0 <= k < |plan| ==> |plan[k].block| == 1
  }

  /** Appending a one-line insert keeps every insert one line long. */
  lemma OneLineSnoc(plan: seq<Insert>, e: Insert)
    requires OneLineEach(plan) && |e.block| == 1
    ensures OneLineEach(plan + [e])
  {
  }

  /** Sorting keeps every insert one line long. */
  lemma SortedOneLineEach(inserts: seq<Insert>)
    requires OneLineEach(inserts)
    ensures OneLineEach(SortDescending(inserts))
  {
    var ordered := SortDescending(inserts);
    forall k | 0 <= k < |ordered| ensures |ordered[k].block| == 1 {
      assert ordered[k] in multiset(inserts);
    }
  }

  /** One `lines.insert(lineno, doc)` of the loop applies the next insert
      in sorted order. */
  lemma InsertOneStep(lines: seq<string>, ordered: seq<Insert>, k: nat)
    requires Descending(ordered) && Within(ordered, |lines|) && k < |ordered| && |ordered[k].block| == 1
    ensures ListInsert(AppliedFirst(lines, ordered, k), ordered[k].at, ordered[k].block[0])
         == AppliedFirst(lines, ordered, k + 1)
  {
    AppliedFirstStep(lines, ordered, k);
    assert ordered[k].block == [ordered[k].block[0]];
  }

  /** `for lineno, doc in sorted(inserts, reverse=True): lines.insert(lineno, doc)`:
      the one-element inserts applied highest index first. */
  method InsertEach(lines: seq<string>, inserts: seq<Insert>) returns (r: seq<string>)
    requires OneLineEach(inserts)
    ensures |r| == |lines| + |inserts|
    ensures Within(inserts, |lines|) ==> r == Applied(lines, inserts)
  {
    r := lines;
    var ordered := SortDescending(inserts);
    SortDescendingSorted(inserts);
    SortedOneLineEach(inserts);
    ghost var within := Within(inserts, |lines|);
    if within {
      SortDescendingWithin(inserts, |lines|);
      AppliedFirstNone(lines, ordered);
    }
    var k := 0;
    while k < |ordered|
      invariant k <= |ordered|
      invariant |r| == |lines| + k
      invariant within ==> Within(ordered, |lines|) && r == AppliedFirst(lines, ordered, k)
    {
      var lineno, doc := ordered[k].at, ordered[k].block[0];
      if within {
        InsertOneStep(lines, ordered, k);
      }
      r := ListInsert(r, lineno, doc);
      k := k + 1;
    }
    if within {
      AppliedFirstAll(lines, inserts);
    }
  }
}
