/** The baseline template: a docstring assembled line by line from a
    function's name and parameter names. */
module Baseline {
  import opened Seqs
  import opened Text
  import StyledGenerator

  function ParamLine(p: string): string
  {
    "    " + p + ": parameter"
  }

  /** The `Args:` section: absent without parameters. */
  function ArgsSection(params: seq<string>): seq<string>
  {
    if params == [] then [] else ["Args:"] + Map(params, ParamLine) + [""]
  }

  /** The lines of the baseline docstring. */
  function BaselineLines(name: string, params: seq<string>): seq<string>
  {
    [StyledGenerator.Quotes, "Function " + name + ".", ""] + ArgsSection(params)
      + ["Returns:", "    value", StyledGenerator.Quotes]
  }

  /** `generate_baseline_docstring(func_info)`: the list of lines is grown by
      appends, then joined with line breaks. */
  method GenerateBaselineDocstring(name: string, params: seq<string>) returns (doc: string)
    ensures doc == Join(BaselineLines(name, params))
  {
    var lines: seq<string> := [];
    lines := lines + [StyledGenerator.Quotes];
    lines := lines + ["Function " + name + "."];
    lines := lines + [""];
    if params != [] {
      lines := lines + ["Args:"];
      var i := 0;
      while i < |params|
        invariant i <= |params|
        invariant lines == [StyledGenerator.Quotes, "Function " + name + ".", "", "Args:"] + Map(params[..i], ParamLine)
      {
        assert params[..i + 1][..i] == params[..i];
        lines := lines + ["    " + params[i] + ": parameter"];
        i := i + 1;
      }
      assert params[..i] == params;
      lines := lines + [""];
    }
    lines := lines + ["Returns:"];
    lines := lines + ["    value"];
    lines := lines + [StyledGenerator.Quotes];
    assert lines == [StyledGenerator.Quotes, "Function " + name + ".", ""] + ArgsSection(params)
                    + ["Returns:", "    value", StyledGenerator.Quotes];
    return Join(lines);
  }

  /** The shape of the baseline docstring: six lines without parameters,
      `8 + |params|` with them; the delimiter first and last; `Function
      <name>.` then a blank; an `Args:` line exactly when there are parameters,
      followed by one `    <p>: parameter` line per parameter in order and a
      blank; and `Returns:`, `    value` at the end. */
  lemma BaselineShape(name: string, params: seq<string>)
    ensures var lines := BaselineLines(name, params);
      |lines| == (if params == [] then 6 else 8 + |params|)
      && lines[0] == StyledGenerator.Quotes && lines[|lines| - 1] == StyledGenerator.Quotes
      && lines[1] == "Function " + name + "." && lines[2] == ""
      && ("Args:" in lines <==> params != [])
      && (params != [] ==>
            lines[3] == "Args:" && lines[4 + |params|] == ""
            && forall i :: 0 <= i < |params| ==> lines[4 + i] == "    " + params[i] + ": parameter")
      && lines[|lines| - 3..] == ["Returns:", "    value", StyledGenerator.Quotes]
  {
    var lines := BaselineLines(name, params);
    if params == [] {
      assert lines == [StyledGenerator.Quotes, "Function " + name + ".", "", "Returns:", "    value", StyledGenerator.Quotes];
      assert ("Function " + name + ".")[0] == 'F';
      assert "Args:"[0] == 'A';
    } else {
      assert lines[3] == "Args:";
    }
  }

  /** With a name and parameters free of line breaks, splitting the docstring
      at its line breaks gives back exactly these lines. */
  lemma BaselineSplit(name: string, params: seq<string>)
    requires NoNewline(name) && AllNoNewline(params)
    ensures Split(Join(BaselineLines(name, params))) == BaselineLines(name, params)
  {
    var head := [StyledGenerator.Quotes, "Function " + name + ".", ""];
    var args := ArgsSection(params);
    var tail := ["Returns:", "    value", StyledGenerator.Quotes];
    var lines := BaselineLines(name, params);
    assert lines == head + args + tail;
    assert AllNoNewline(args) by {
      forall k | 0 <= k < |args| ensures NoNewline(args[k]) {
        if 1 <= k < 1 + |params| {
          assert args[k] == ParamLine(params[k - 1]);
          assert NoNewline(params[k - 1]);
        }
      }
    }
    forall k | 0 <= k < |lines| ensures NoNewline(lines[k]) {
      if 3 <= k < 3 + |args| {
        assert lines[k] == args[k - 3];
      }
    }
    SplitJoin(lines);
  }
}
