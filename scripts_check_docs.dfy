/** The standalone coverage script: `count_items` counts the functions and
    classes of a module at any depth, and the documented ones. */
module ScriptsCheckDocs {
  import opened Wrappers
  import opened Seqs
  import opened PyAst
  import CheckDocs

  /** `count_items(source)`: `(total, documented)`; a syntax error propagates. */
  method CountItems(parsed: Parsed) returns (r: Result<(nat, nat), SyntaxError>)
    ensures parsed.Failure? ==> r == Failure(parsed.error)
    ensures parsed.Success? ==> r.Success?
    ensures parsed.Success? ==> r.value.0 == Count(Walk(parsed.value), CheckDocs.IsCounted)
    ensures parsed.Success? ==> r.value.1 == Count(Walk(parsed.value), CheckDocs.IsDocumented)
    ensures parsed.Success? ==> r.value.1 <= r.value.0
  {
    if parsed.Failure? {
      return Failure(parsed.error);
    }
    var walk := Walk(parsed.value);
    var total: nat := 0;
    var documented: nat := 0;
    var i := 0;
    while i < |walk|
      invariant i <= |walk|
      invariant total == Count(walk[..i], CheckDocs.IsCounted)
      invariant documented == Count(walk[..i], CheckDocs.IsDocumented)
    {
      var node := walk[i];
      assert walk[..i + 1][..i] == walk[..i];
      if node.kind == FunctionDef || node.kind == ClassDef {
        total := total + 1;
        if node.docstring.Some? && node.docstring.value != "" {
          documented := documented + 1;
        }
      }
      i := i + 1;
    }
    assert walk[..i] == walk;
    DocumentedAtMostTotal(walk);
    return Success((total, documented));
  }

  /** Never more documented items than items. */
  lemma {:induction false} DocumentedAtMostTotal(walk: seq<Node>)
    ensures Count(walk, CheckDocs.IsDocumented) <= Count(walk, CheckDocs.IsCounted)
  {
    if walk != [] {
      DocumentedAtMostTotal(walk[..|walk| - 1]);
    }
  }

  /** For the same module the script's pair is the first two components of the
      packaged `count_items` tally, whatever the file name. */
  lemma AgreesWithPackagedCount(m: Module, filename: string)
    ensures CheckDocs.TallyOf(Walk(m), filename).total == Count(Walk(m), CheckDocs.IsCounted)
    ensures CheckDocs.TallyOf(Walk(m), filename).documented == Count(Walk(m), CheckDocs.IsDocumented)
    ensures Count(Walk(m), CheckDocs.IsCounted)
         == Count(Walk(m), CheckDocs.IsDocumented) + |CheckDocs.TallyOf(Walk(m), filename).missing|
  {
    CheckDocs.TallyBalance(Walk(m), filename);
  }

  /** An empty module counts `(0, 0)`. */
  lemma EmptySource()
    ensures Count(Walk(Module([])), CheckDocs.IsCounted) == 0
    ensures Count(Walk(Module([])), CheckDocs.IsDocumented) == 0
  {
  }
}
