/** Insertion of docstring blocks into a line buffer.  All three injectors
    collect `(index, block)` pairs against the ORIGINAL buffer, sort them with
    `sorted(inserts, reverse=True)` and insert them highest index first.  This
    module gives the reference they are proved against: `Spliced`, the buffer
    rewritten in one pass with every block in front of the original line its
    index names. */
module Splice {
  import opened Seqs

  /** One planned insertion: `block` goes in front of the line at index `at` of
      the original buffer (at the end when `at` is the buffer's length). */
  datatype Insert = Insert(at: nat, block: seq<string>)

  function BlockSize(e: Insert): nat
  {
    |e.block|
  }

  /** Number of lines all the blocks of a plan add. */
  function Sizes(plan: seq<Insert>): nat
  {
    Sum(plan, BlockSize)
  }

  function UpTo(i: nat): Insert -> nat
  {
    (e: Insert) => if e.at <= i then |e.block| else 0
  }

  function Below(i: nat): Insert -> nat
  {
    (e: Insert) => if e.at < i then |e.block| else 0
  }

  function AnchoredAt(i: nat): Insert -> bool
  {
    (e: Insert) => e.at == i
  }

  /** Number of lines the blocks anchored at or before original index `i` add. */
  function SizesUpTo(plan: seq<Insert>, i: nat): nat
  {
    Sum(plan, UpTo(i))
  }

  /** Number of lines the blocks anchored strictly before original index `i` add. */
  function SizesBelow(plan: seq<Insert>, i: nat): nat
  {
    Sum(plan, Below(i))
  }

  predicate Ascending(plan: seq<Insert>)
  {
    forall i, j :: 0 <= i < j < |plan| ==> plan[i].at <= plan[j].at
  }

  predicate Descending(plan: seq<Insert>)
  {
    forall i, j :: 0 <= i < j < |plan| ==> plan[i].at >= plan[j].at
  }

  /** Every anchor names a line of a buffer of `n` lines, or its end. */
  predicate Within(plan: seq<Insert>, n: nat)
  {
    forall i :: 0 <= i < |plan| ==> plan[i].at <= n
  }

  /** The one-pass rewrite: the original lines in order, each block placed in
      front of the original line at its anchor; blocks sharing an anchor keep
      the plan's order.  The buffer grows by exactly the blocks' lines. */
  function Spliced(lines: seq<string>, plan: seq<Insert>): (r: seq<string>)
    requires Ascending(plan) && Within(plan, |lines|)
    ensures |r| == |lines| + Sizes(plan)
    decreases |plan|
  {
    if plan == [] then lines
    else
      var last := plan[|plan| - 1];
      Spliced(lines[..last.at], plan[..|plan| - 1]) + last.block + lines[last.at..]
  }

  /** Python's `list.insert(i, x)` for a non-negative index: past the end it appends. */
  function ListInsert(lines: seq<string>, i: nat, x: string): (r: seq<string>)
    ensures |r| == |lines| + 1
    ensures i <= |lines| ==> r == lines[..i] + [x] + lines[i..]
    ensures i >= |lines| ==> r == lines + [x]
  {
    if i < |lines| then lines[..i] + [x] + lines[i..] else lines + [x]
  }

  /** A whole block inserted at index `i`. */
  function BlockInsert(lines: seq<string>, i: nat, block: seq<string>): seq<string>
    requires i <= |lines|
  {
    lines[..i] + block + lines[i..]
  }

  lemma BlockInsertPrefix(a: seq<string>, b: seq<string>, i: nat, block: seq<string>)
    requires i <= |a|
    ensures BlockInsert(a + b, i, block) == BlockInsert(a, i, block) + b
  {
    assert (a + b)[..i] == a[..i];
    assert (a + b)[i..] == a[i..] + b;
  }

  /** The load-bearing step: a block whose anchor is at or below every anchor
      already applied lands where the one-pass rewrite puts it, because the
      earlier insertions only changed the buffer after its anchor. */
  lemma {:induction false} InsertBelow(lines: seq<string>, e: Insert, plan: seq<Insert>)
    requires Ascending(plan) && Within(plan, |lines|) && e.at <= |lines|
    requires forall k :: 0 <= k < |plan| ==> e.at <= plan[k].at
    ensures Ascending([e] + plan) && Within([e] + plan, |lines|)
    ensures e.at <= |Spliced(lines, plan)|
    ensures BlockInsert(Spliced(lines, plan), e.at, e.block) == Spliced(lines, [e] + plan)
    decreases |plan|
  {
    var plan' := [e] + plan;
    ConsAscending(e, plan, |lines|);
    if plan == [] {
      assert plan' == [e];
      assert plan'[..0] == [];
      assert lines[..e.at][..e.at] == lines[..e.at];
    } else {
      var last := plan[|plan| - 1];
      var init := plan[..|plan| - 1];
      var prefix := lines[..last.at];
      InitFacts(e, plan, |lines|);
      InsertBelow(prefix, e, init);
      var s := Spliced(prefix, init);
      BlockInsertPrefix(s, last.block + lines[last.at..], e.at, e.block);
      assert plan'[..|plan'| - 1] == [e] + init;
      assert plan'[|plan'| - 1] == last;
      assert s + last.block + lines[last.at..] == s + (last.block + lines[last.at..]);
      assert BlockInsert(s, e.at, e.block) + (last.block + lines[last.at..])
          == BlockInsert(s, e.at, e.block) + last.block + lines[last.at..];
    }
  }

  lemma ConsAscending(e: Insert, plan: seq<Insert>, n: nat)
    requires Ascending(plan) && Within(plan, n) && e.at <= n
    requires forall k :: 0 <= k < |plan| ==> e.at <= plan[k].at
    ensures Ascending([e] + plan) && Within([e] + plan, n)
  {
    var plan' := [e] + plan;
    forall i, j | 0 <= i < j < |plan'| ensures plan'[i].at <= plan'[j].at {
      if i > 0 { assert plan'[i] == plan[i - 1]; }
      assert plan'[j] == plan[j - 1];
    }
  }

  /** Dropping the last insert keeps the rest ascending and anchored at or
      before the dropped one. */
  lemma InitAscending(plan: seq<Insert>, n: nat)
    requires Ascending(plan) && Within(plan, n) && plan != []
    ensures var init, last := plan[..|plan| - 1], plan[|plan| - 1];
      Ascending(init) && Within(init, last.at) && last.at <= n
  {
  }

  lemma InitFacts(e: Insert, plan: seq<Insert>, n: nat)
    requires Ascending(plan) && Within(plan, n) && plan != []
    requires forall k :: 0 <= k < |plan| ==> e.at <= plan[k].at
    ensures var init, last := plan[..|plan| - 1], plan[|plan| - 1];
      Ascending(init) && Within(init, last.at) && last.at <= n && e.at <= last.at
      && (forall k :: 0 <= k < |init| ==> e.at <= init[k].at)
  {
  }

  /** The first `k` sorted inserts, reversed, are in ascending order and
      within the buffer. */
  lemma ReversedPrefix(ordered: seq<Insert>, k: nat, n: nat)
    requires Descending(ordered) && Within(ordered, n) && k <= |ordered|
    ensures Ascending(Reverse(ordered[..k])) && Within(Reverse(ordered[..k]), n)
  {
  }

  /** The buffer once the first `k` inserts of `ordered` were applied, as the
      one-pass rewrite of those inserts. */
  function AppliedFirst(lines: seq<string>, ordered: seq<Insert>, k: nat): seq<string>
    requires Descending(ordered) && Within(ordered, |lines|) && k <= |ordered|
  {
    ReversedPrefix(ordered, k, |lines|);
    Spliced(lines, Reverse(ordered[..k]))
  }

  /** Before any insert the buffer is the original one. */
  lemma AppliedFirstNone(lines: seq<string>, ordered: seq<Insert>)
    requires Descending(ordered) && Within(ordered, |lines|)
    ensures AppliedFirst(lines, ordered, 0) == lines
  {
    assert ordered[..0] == [];
  }

  /** Inserting the next block, whose anchor is at or below all those
      already applied, extends the one-pass rewrite by that block. */
  lemma AppliedFirstStep(lines: seq<string>, ordered: seq<Insert>, k: nat)
    requires Descending(ordered) && Within(ordered, |lines|) && k < |ordered|
    ensures ordered[k].at <= |AppliedFirst(lines, ordered, k)|
    ensures BlockInsert(AppliedFirst(lines, ordered, k), ordered[k].at, ordered[k].block)
         == AppliedFirst(lines, ordered, k + 1)
  {
    var done := Reverse(ordered[..k]);
    ReversedPrefix(ordered, k, |lines|);
    assert Reverse(ordered[..k + 1]) == [ordered[k]] + done by {
      assert ordered[..k + 1][..k] == ordered[..k];
    }
    InsertBelow(lines, ordered[k], done);
  }

  /** With every sorted insert applied, the buffer is `Applied`. */
  lemma AppliedFirstAll(lines: seq<string>, plan: seq<Insert>)
    requires Within(plan, |lines|)
    requires Descending(SortDescending(plan)) && Within(SortDescending(plan), |lines|)
    ensures AppliedFirst(lines, SortDescending(plan), |plan|) == Applied(lines, plan)
  {
    var ordered := SortDescending(plan);
    assert ordered[..|plan|] == ordered;
    assert Reverse(ordered[..|plan|]) == Placed(plan);
  }

  lemma {:induction false} SizesPrefix(plan: seq<Insert>, j: nat)
    requires j < |plan|
    ensures Sizes(plan[..j + 1]) == Sizes(plan[..j]) + |plan[j].block|
    ensures Sizes(plan[..j + 1]) <= Sizes(plan)
  {
    assert plan[..j + 1][..j] == plan[..j];
    assert plan == plan[..j + 1] + plan[j + 1..];
    SumAppend(plan[..j + 1], plan[j + 1..], BlockSize);
  }

  lemma {:induction false} SizesUpToAll(plan: seq<Insert>, i: nat)
    requires Within(plan, i)
    ensures SizesUpTo(plan, i) == Sizes(plan)
  {
    if plan != [] {
      SizesUpToAll(plan[..|plan| - 1], i);
    }
  }

  lemma {:induction false} SizesUpToMonotone(plan: seq<Insert>, i: nat, i': nat)
    requires i <= i'
    ensures SizesUpTo(plan, i) <= SizesUpTo(plan, i')
  {
    if plan != [] {
      SizesUpToMonotone(plan[..|plan| - 1], i, i');
    }
  }

  /** Original line `i` survives unchanged, shifted down by exactly the blocks
      anchored at or before it; so the original lines keep their order. */
  lemma {:induction false} SplicedKeepsLine(lines: seq<string>, plan: seq<Insert>, i: nat)
    requires Ascending(plan) && Within(plan, |lines|) && i < |lines|
    ensures i + SizesUpTo(plan, i) < |Spliced(lines, plan)|
    ensures Spliced(lines, plan)[i + SizesUpTo(plan, i)] == lines[i]
    decreases |plan|
  {
    if plan != [] {
      var last := plan[|plan| - 1];
      var init := plan[..|plan| - 1];
      InitAscending(plan, |lines|);
      var s := Spliced(lines[..last.at], init);
      assert Spliced(lines, plan) == s + last.block + lines[last.at..];
      if i < last.at {
        SplicedKeepsLine(lines[..last.at], init, i);
        assert SizesUpTo(plan, i) == SizesUpTo(init, i);
      } else {
        SizesUpToAll(init, i);
        assert i + SizesUpTo(plan, i) == |s| + |last.block| + (i - last.at);
      }
    }
  }

  /** Original lines appear in the rewrite in their original order. */
  lemma SplicedKeepsOrder(lines: seq<string>, plan: seq<Insert>, i: nat, i': nat)
    requires Ascending(plan) && Within(plan, |lines|) && i < i' < |lines|
    ensures i + SizesUpTo(plan, i) < i' + SizesUpTo(plan, i')
  {
    SizesUpToMonotone(plan, i, i');
  }

  /** Block `j` starts at its anchor shifted by the blocks before it, that is,
      right after original line `at - 1` and the blocks that precede it. */
  lemma {:induction false} SplicedPlacesBlock(lines: seq<string>, plan: seq<Insert>, j: nat, k: nat)
    requires Ascending(plan) && Within(plan, |lines|) && j < |plan| && k < |plan[j].block|
    ensures plan[j].at + Sizes(plan[..j]) + k < |Spliced(lines, plan)|
    ensures Spliced(lines, plan)[plan[j].at + Sizes(plan[..j]) + k] == plan[j].block[k]
    decreases |plan|
  {
    var last := plan[|plan| - 1];
    var init := plan[..|plan| - 1];
    if j == |plan| - 1 {
      assert plan[..j] == init;
    } else {
      assert init[..j] == plan[..j];
      assert init[j] == plan[j];
      SplicedPlacesBlock(lines[..last.at], init, j, k);
      SizesPrefix(init, j);
    }
  }

  /** Python's `a < b` on strings: lexicographic by code point. */
  predicate CharsBefore(a: string, b: string)
  {
    if a == [] then b != []
    else if b == [] then false
    else if a[0] != b[0] then a[0] < b[0]
    else CharsBefore(a[1..], b[1..])
  }

  lemma {:induction false} CharsBeforeAsymmetric(a: string, b: string)
    requires CharsBefore(a, b)
    ensures !CharsBefore(b, a)
  {
    if a != [] && b != [] && a[0] == b[0] {
      CharsBeforeAsymmetric(a[1..], b[1..]);
    }
  }

  /** Python's `a < b` on lists of strings. */
  predicate LinesBefore(a: seq<string>, b: seq<string>)
  {
    if a == [] then b != []
    else if b == [] then false
    else if a[0] != b[0] then CharsBefore(a[0], b[0])
    else LinesBefore(a[1..], b[1..])
  }

  lemma {:induction false} LinesBeforeAsymmetric(a: seq<string>, b: seq<string>)
    requires LinesBefore(a, b)
    ensures !LinesBefore(b, a)
  {
    if a != [] && b != [] {
      if a[0] != b[0] {
        CharsBeforeAsymmetric(a[0], b[0]);
      } else {
        LinesBeforeAsymmetric(a[1..], b[1..]);
      }
    }
  }

  /** Python's tuple order on `(index, block)`. */
  predicate EntryBefore(x: Insert, y: Insert)
  {
    x.at < y.at || (x.at == y.at && LinesBefore(x.block, y.block))
  }

  lemma EntryBeforeAsymmetric(x: Insert, y: Insert)
    requires EntryBefore(x, y)
    ensures !EntryBefore(y, x)
  {
    if x.at == y.at {
      LinesBeforeAsymmetric(x.block, y.block);
    }
  }

  /** Neighbours are in non-increasing tuple order. */
  predicate TupleDescending(s: seq<Insert>)
  {
    forall i :: 0 <= i < |s| - 1 ==> !EntryBefore(s[i], s[i + 1])
  }

  function InsertDescending(x: Insert, s: seq<Insert>): (r: seq<Insert>)
    ensures multiset(r) == multiset(s) + multiset{x}
    ensures |r| == |s| + 1
    ensures r[0] == x || (s != [] && r[0] == s[0])
  {
    if s == [] || !EntryBefore(x, s[0]) then [x] + s
    else
      assert s == [s[0]] + s[1..];
      [s[0]] + InsertDescending(x, s[1..])
  }

  /** Inserting into a sorted sequence keeps it sorted. */
  lemma {:induction false} InsertDescendingSorted(x: Insert, s: seq<Insert>)
    requires Descending(s) && TupleDescending(s)
    ensures Descending(InsertDescending(x, s)) && TupleDescending(InsertDescending(x, s))
  {
    if s == [] || !EntryBefore(x, s[0]) {
      assert forall k :: 0 <= k < |s| ==> s[k].at <= s[0].at <= x.at;
      ConsDescending(x, s);
    } else {
      EntryBeforeAsymmetric(x, s[0]);
      var rest := s[1..];
      assert forall k :: 0 <= k < |rest| ==> rest[k] == s[k + 1];
      InsertDescendingSorted(x, rest);
      InsertDescendingBounded(x, rest, s[0].at);
      ConsDescending(s[0], InsertDescending(x, rest));
    }
  }

  /** An insert in front of a sorted run, at or above all of it and not
      before its first, keeps it sorted. */
  lemma ConsDescending(y: Insert, t: seq<Insert>)
    requires Descending(t) && TupleDescending(t)
    requires forall k :: 0 <= k < |t| ==> t[k].at <= y.at
    requires t != [] ==> !EntryBefore(y, t[0])
    ensures Descending([y] + t) && TupleDescending([y] + t)
  {
    var r := [y] + t;
    forall i, j | 0 <= i < j < |r| ensures r[i].at >= r[j].at {
      assert r[j] == t[j - 1];
      if i > 0 { assert r[i] == t[i - 1]; }
    }
    forall i | 0 <= i < |r| - 1 ensures !EntryBefore(r[i], r[i + 1]) {
      assert r[i + 1] == t[i];
      if i > 0 { assert r[i] == t[i - 1]; }
    }
  }

  /** Inserting keeps every anchor at or below a bound all of them respect. */
  lemma InsertDescendingBounded(x: Insert, s: seq<Insert>, b: nat)
    requires x.at <= b && forall k :: 0 <= k < |s| ==> s[k].at <= b
    ensures forall k :: 0 <= k < |InsertDescending(x, s)| ==> InsertDescending(x, s)[k].at <= b
  {
    var r := InsertDescending(x, s);
    forall k | 0 <= k < |r| ensures r[k].at <= b {
      var y := r[k];
      assert y in multiset(r);
      if y != x {
        assert y in multiset(s);
        var m :| 0 <= m < |s| && s[m] == y;
      }
    }
  }

  /** `sorted(inserts, reverse=True)`: a permutation of the inserts in
      non-increasing tuple order, hence with non-increasing anchors. */
  function SortDescending(s: seq<Insert>): (r: seq<Insert>)
    ensures multiset(r) == multiset(s)
    ensures |r| == |s|
  {
    if s == [] then []
    else
      assert s == [s[0]] + s[1..];
      InsertDescending(s[0], SortDescending(s[1..]))
  }

  /** The sorted inserts are in non-increasing tuple order, hence with
      non-increasing anchors. */
  lemma {:induction false} SortDescendingSorted(s: seq<Insert>)
    ensures Descending(SortDescending(s)) && TupleDescending(SortDescending(s))
  {
    if s != [] {
      SortDescendingSorted(s[1..]);
      InsertDescendingSorted(s[0], SortDescending(s[1..]));
    }
  }

  /** Sorting keeps every anchor within the buffer. */
  lemma SortDescendingWithin(plan: seq<Insert>, n: nat)
    requires Within(plan, n)
    ensures Within(SortDescending(plan), n)
  {
    var sorted := SortDescending(plan);
    forall k | 0 <= k < |sorted| ensures sorted[k].at <= n {
      assert sorted[k] in multiset(plan);
      var m :| 0 <= m < |plan| && plan[m] == sorted[k];
    }
  }

  /** The plan in the order in which blocks end up in the buffer. */
  function Placed(plan: seq<Insert>): seq<Insert>
  {
    Reverse(SortDescending(plan))
  }

  /** Placing a plan keeps its blocks and orders them by ascending anchor. */
  lemma PlacedFacts(plan: seq<Insert>, n: nat)
    requires Within(plan, n)
    ensures multiset(Placed(plan)) == multiset(plan)
    ensures Ascending(Placed(plan)) && Within(Placed(plan), n)
    ensures Sizes(Placed(plan)) == Sizes(plan)
  {
    SortDescendingSorted(plan);
    SortDescendingWithin(plan, n);
    SumPermutation(Placed(plan), plan, BlockSize);
  }

  /** The buffer after the inserts of `plan` were applied highest index first. */
  function Applied(lines: seq<string>, plan: seq<Insert>): (r: seq<string>)
    requires Within(plan, |lines|)
    ensures |r| == |lines| + Sizes(plan)
  {
    PlacedFacts(plan, |lines|);
    Spliced(lines, Placed(plan))
  }

  /** With nothing to insert, the buffer is unchanged. */
  lemma AppliedNothing(lines: seq<string>)
    ensures Applied(lines, []) == lines
  {
    assert SortDescending([]) == [];
  }

  lemma {:induction false} SizesBelowAll(plan: seq<Insert>, i: nat)
    requires forall k :: 0 <= k < |plan| ==> plan[k].at < i
    ensures SizesBelow(plan, i) == Sizes(plan)
  {
    if plan != [] {
      SizesBelowAll(plan[..|plan| - 1], i);
    }
  }

  lemma {:induction false} SizesBelowNone(plan: seq<Insert>, i: nat)
    requires forall k :: 0 <= k < |plan| ==> plan[k].at >= i
    ensures SizesBelow(plan, i) == 0
  {
    if plan != [] {
      SizesBelowNone(plan[..|plan| - 1], i);
    }
  }

  lemma {:induction false} SizesBelowIsUpTo(plan: seq<Insert>, i: nat)
    requires i > 0
    ensures SizesBelow(plan, i) == SizesUpTo(plan, i - 1)
  {
    if plan != [] {
      SizesBelowIsUpTo(plan[..|plan| - 1], i);
    }
  }

  /** Two entries at one anchor make that anchor's count at least two. */
  lemma {:induction false} CountTwo(plan: seq<Insert>, a: nat, b: nat, p: nat)
    requires a < b < |plan| && plan[a].at == p && plan[b].at == p
    ensures Count(plan, AnchoredAt(p)) >= 2
  {
    var init := plan[..|plan| - 1];
    if b < |plan| - 1 {
      CountTwo(init, a, b, p);
    } else {
      assert init[a].at == p;
      CountOne(init, a, p);
    }
  }

  lemma {:induction false} CountOne(plan: seq<Insert>, a: nat, p: nat)
    requires a < |plan| && plan[a].at == p
    ensures Count(plan, AnchoredAt(p)) >= 1
  {
    if a < |plan| - 1 {
      CountOne(plan[..|plan| - 1], a, p);
    }
  }

  /** With a single block at `p`, the blocks up to `p` are those below it plus that block. */
  lemma {:induction false} SizesUpToUnique(plan: seq<Insert>, j: nat)
    requires j < |plan| && Count(plan, AnchoredAt(plan[j].at)) == 1
    ensures SizesUpTo(plan, plan[j].at) == SizesBelow(plan, plan[j].at) + |plan[j].block|
  {
    var p := plan[j].at;
    var init := plan[..|plan| - 1];
    var last := plan[|plan| - 1];
    if j == |plan| - 1 {
      SizesUpToNoneAt(init, p);
    } else {
      assert init[j] == plan[j];
      if last.at == p {
        CountOne(init, j, p);
        assert false;
      }
      SizesUpToUnique(init, j);
    }
  }

  lemma {:induction false} SizesUpToNoneAt(plan: seq<Insert>, p: nat)
    requires Count(plan, AnchoredAt(p)) == 0
    ensures SizesUpTo(plan, p) == SizesBelow(plan, p)
  {
    if plan != [] {
      SizesUpToNoneAt(plan[..|plan| - 1], p);
    }
  }

  /** The only entry at its anchor: every other entry has another anchor. */
  lemma OnlyOneAt(plan: seq<Insert>, j: nat)
    requires j < |plan| && Count(plan, AnchoredAt(plan[j].at)) == 1
    ensures forall k :: 0 <= k < |plan| && k != j ==> plan[k].at != plan[j].at
  {
    var p := plan[j].at;
    forall k | 0 <= k < |plan| && k != j ensures plan[k].at != p {
      if plan[k].at == p {
        if k < j { CountTwo(plan, k, j, p); } else { CountTwo(plan, j, k, p); }
      }
    }
  }

  /** In ascending order, the blocks in front of the only block at `p` are
      exactly the blocks anchored below `p`. */
  lemma PlacedPrefixBelow(plan: seq<Insert>, j: nat)
    requires Ascending(plan) && j < |plan| && Count(plan, AnchoredAt(plan[j].at)) == 1
    ensures Sizes(plan[..j]) == SizesBelow(plan, plan[j].at)
  {
    PrefixAllBelow(plan, j);
    SuffixNoneBelow(plan, j);
    assert plan == plan[..j] + plan[j..];
    SumAppend(plan[..j], plan[j..], Below(plan[j].at));
  }

  /** The blocks in front of the only block at its anchor are all anchored below it. */
  lemma PrefixAllBelow(plan: seq<Insert>, j: nat)
    requires Ascending(plan) && j < |plan| && Count(plan, AnchoredAt(plan[j].at)) == 1
    ensures SizesBelow(plan[..j], plan[j].at) == Sizes(plan[..j])
  {
    OnlyOneAt(plan, j);
    forall k | 0 <= k < j ensures plan[..j][k].at < plan[j].at {
      assert plan[..j][k] == plan[k] && plan[k].at <= plan[j].at;
    }
    SizesBelowAll(plan[..j], plan[j].at);
  }

  /** From a block on, none is anchored below it. */
  lemma SuffixNoneBelow(plan: seq<Insert>, j: nat)
    requires Ascending(plan) && j < |plan|
    ensures SizesBelow(plan[j..], plan[j].at) == 0
  {
    forall k | 0 <= k < |plan[j..]| ensures plan[j..][k].at >= plan[j].at {
      assert plan[j..][k] == plan[j + k];
    }
    SizesBelowNone(plan[j..], plan[j].at);
  }

  /** Two original lines keep their contents and their order. */
  lemma AppliedKeepsOrder(lines: seq<string>, plan: seq<Insert>, i: nat, i': nat)
    requires Within(plan, |lines|) && i <= i' < |lines|
    ensures i + SizesUpTo(plan, i) <= i' + SizesUpTo(plan, i') < |Applied(lines, plan)|
    ensures Applied(lines, plan)[i + SizesUpTo(plan, i)] == lines[i]
    ensures Applied(lines, plan)[i' + SizesUpTo(plan, i')] == lines[i']
    ensures i < i' ==> i + SizesUpTo(plan, i) < i' + SizesUpTo(plan, i')
  {
    AppliedKeepsLine(lines, plan, i);
    AppliedKeepsLine(lines, plan, i');
    SizesUpToMonotone(plan, i, i');
  }

  /** After the descending application, original line `i` sits at index `i`
      plus the lines of the blocks anchored at or before it. */
  lemma AppliedKeepsLine(lines: seq<string>, plan: seq<Insert>, i: nat)
    requires Within(plan, |lines|) && i < |lines|
    ensures i + SizesUpTo(plan, i) < |Applied(lines, plan)|
    ensures Applied(lines, plan)[i + SizesUpTo(plan, i)] == lines[i]
  {
    PlacedFacts(plan, |lines|);
    SplicedKeepsLine(lines, Placed(plan), i);
    SumPermutation(Placed(plan), plan, UpTo(i));
  }

  /** Where an entry that is alone at its anchor ends up in the placed order. */
  lemma PlacedIndexOf(plan: seq<Insert>, e: Insert, n: nat) returns (j: nat)
    requires Within(plan, n) && e in plan && Count(plan, AnchoredAt(e.at)) == 1
    ensures Ascending(Placed(plan)) && Within(Placed(plan), n)
    ensures j < |Placed(plan)| && Placed(plan)[j] == e
    ensures Count(Placed(plan), AnchoredAt(e.at)) == 1
    ensures Sizes(Placed(plan)[..j]) == SizesBelow(plan, e.at)
    ensures SizesBelow(Placed(plan), e.at) == SizesBelow(plan, e.at)
    ensures SizesUpTo(Placed(plan), e.at) == SizesUpTo(plan, e.at)
  {
    var placed := Placed(plan);
    PlacedFacts(plan, n);
    assert e in multiset(placed);
    j :| 0 <= j < |placed| && placed[j] == e;
    CountPermutation(placed, plan, AnchoredAt(e.at));
    PlacedPrefixBelow(placed, j);
    SumPermutation(placed, plan, Below(e.at));
    SumPermutation(placed, plan, UpTo(e.at));
  }

  /** In ascending order, the block of the only entry at its anchor starts at
      the anchor plus the lines of the blocks anchored below it. */
  lemma SplicedUniqueBlock(lines: seq<string>, placed: seq<Insert>, j: nat, e: Insert, k: nat)
    requires Ascending(placed) && Within(placed, |lines|) && j < |placed| && placed[j] == e
    requires Count(placed, AnchoredAt(e.at)) == 1 && k < |e.block|
    ensures e.at + SizesBelow(placed, e.at) + |e.block| <= |Spliced(lines, placed)|
    ensures Spliced(lines, placed)[e.at + SizesBelow(placed, e.at) + k] == e.block[k]
  {
    PlacedPrefixBelow(placed, j);
    SplicedPlacesBlock(lines, placed, j, k);
    SplicedPlacesBlock(lines, placed, j, |e.block| - 1);
  }

  /** The original line just above the only block at its anchor is adjacent to it. */
  lemma SplicedUniqueFollows(lines: seq<string>, placed: seq<Insert>, p: nat)
    requires Ascending(placed) && Within(placed, |lines|) && 0 < p <= |lines|
    ensures 0 < p + SizesBelow(placed, p) <= |Spliced(lines, placed)|
    ensures Spliced(lines, placed)[p + SizesBelow(placed, p) - 1] == lines[p - 1]
  {
    SplicedKeepsLine(lines, placed, p - 1);
    SizesBelowIsUpTo(placed, p);
  }

  /** The original line at the anchor comes right after the only block there. */
  lemma SplicedUniquePrecedes(lines: seq<string>, placed: seq<Insert>, j: nat, e: Insert)
    requires Ascending(placed) && Within(placed, |lines|) && j < |placed| && placed[j] == e
    requires Count(placed, AnchoredAt(e.at)) == 1 && e.at < |lines|
    ensures e.at + SizesBelow(placed, e.at) + |e.block| < |Spliced(lines, placed)|
    ensures Spliced(lines, placed)[e.at + SizesBelow(placed, e.at) + |e.block|] == lines[e.at]
  {
    SplicedKeepsLine(lines, placed, e.at);
    SizesUpToUnique(placed, j);
  }

  /** After the descending application, the block of an entry that is alone at
      its anchor starts at the anchor plus the lines of the blocks below it:
      the anchors computed against the original buffer are honoured. */
  lemma AppliedPlacesBlock(lines: seq<string>, plan: seq<Insert>, e: Insert, k: nat)
    requires Within(plan, |lines|) && e in plan && Count(plan, AnchoredAt(e.at)) == 1
    requires k < |e.block|
    ensures e.at + SizesBelow(plan, e.at) + |e.block| <= |Applied(lines, plan)|
    ensures Applied(lines, plan)[e.at + SizesBelow(plan, e.at) + k] == e.block[k]
  {
    var j := PlacedIndexOf(plan, e, |lines|);
    SplicedUniqueBlock(lines, Placed(plan), j, e, k);
  }

  /** Such a block follows original line `at - 1` directly. */
  lemma AppliedBlockFollowsLine(lines: seq<string>, plan: seq<Insert>, e: Insert)
    requires Within(plan, |lines|) && e in plan && Count(plan, AnchoredAt(e.at)) == 1
    requires 0 < e.at
    ensures 0 < e.at + SizesBelow(plan, e.at) <= |Applied(lines, plan)|
    ensures Applied(lines, plan)[e.at + SizesBelow(plan, e.at) - 1] == lines[e.at - 1]
  {
    var j := PlacedIndexOf(plan, e, |lines|);
    SplicedUniqueFollows(lines, Placed(plan), e.at);
  }

  /** Such a block is followed directly by original line `at`. */
  lemma AppliedBlockPrecedesLine(lines: seq<string>, plan: seq<Insert>, e: Insert)
    requires Within(plan, |lines|) && e in plan && Count(plan, AnchoredAt(e.at)) == 1
    requires e.at < |lines|
    ensures e.at + SizesBelow(plan, e.at) + |e.block| < |Applied(lines, plan)|
    ensures Applied(lines, plan)[e.at + SizesBelow(plan, e.at) + |e.block|] == lines[e.at]
  {
    var j := PlacedIndexOf(plan, e, |lines|);
    SplicedUniquePrecedes(lines, Placed(plan), j, e);
  }
}
