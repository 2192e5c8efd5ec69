/** The styled docstring templates: Google, NumPy and reStructuredText text
    built from a function's name and parameter names, and the dispatcher that
    picks one by style name. */
module StyledGenerator {
  import opened Wrappers
  import opened Seqs
  import opened Text

  /** The docstring delimiter. */
  const Quotes := "\"\"\""

  /** `"\n".join([])` is empty, so an empty parameter list still leaves one
      (empty) line where the parameters would be. */
  function Block(lines: seq<string>): (r: seq<string>)
    ensures r != [] && Join(r) == Join(lines)
  {
    if lines == [] then [""] else lines
  }

  function GoogleParam(p: string): string
  {
    "    " + p + ": description"
  }

  function NumpyParam(p: string): string
  {
    p + " : type\n    description"
  }

  function RestParam(p: string): string
  {
    ":param " + p + ": description"
  }

  /** `generate_google_style(func)`. */
  function GoogleStyle(name: string, params: seq<string>): string
  {
    Quotes + "\n" + name + " function.\n\nArgs:\n" + Join(Map(params, GoogleParam))
      + "\n\nReturns:\n    value\n" + Quotes + "\n"
  }

  /** `generate_numpy_style(func)`. */
  function NumpyStyle(name: string, params: seq<string>): string
  {
    Quotes + "\n" + name + " function.\n\nParameters\n----------\n" + Join(Map(params, NumpyParam))
      + "\n\nReturns\n-------\nvalue\n" + Quotes + "\n"
  }

  /** `generate_rest_style(func)`. */
  function RestStyle(name: string, params: seq<string>): string
  {
    Quotes + "\n" + name + " function.\n\n" + Join(Map(params, RestParam))
      + "\n:return: value\n" + Quotes + "\n"
  }

  /** The lines of the Google template, the last one empty after the final break. */
  function GoogleLines(name: string, params: seq<string>): seq<string>
  {
    [Quotes, name + " function.", "", "Args:"] + Block(Map(params, GoogleParam))
      + ["", "Returns:", "    value", Quotes, ""]
  }

  /** Each NumPy parameter entry spans two lines. */
  function NumpyParamLines(params: seq<string>): seq<string>
  {
    if params == [] then []
    else NumpyParamLines(params[..|params| - 1]) + [params[|params| - 1] + " : type", "    description"]
  }

  function NumpyLines(name: string, params: seq<string>): seq<string>
  {
    [Quotes, name + " function.", "", "Parameters", "----------"] + Block(NumpyParamLines(params))
      + ["", "Returns", "-------", "value", Quotes, ""]
  }

  function RestLines(name: string, params: seq<string>): seq<string>
  {
    [Quotes, name + " function.", ""] + Block(Map(params, RestParam)) + [":return: value", Quotes, ""]
  }

  /** `generate_docstring(func, style)`: the style name is lower-cased first;
      an unknown style is the `ValueError`. */
  function GenerateDocstring(name: string, params: seq<string>, style: string := "google"): (r: Result<string, string>)
    ensures r.Failure? <==> Lower(style) != "google" && Lower(style) != "numpy" && Lower(style) != "rest"
    ensures r.Failure? ==> r.error == "Unsupported docstring style"
    ensures Lower(style) == "google" ==> r == Success(GoogleStyle(name, params))
    ensures Lower(style) == "numpy" ==> r == Success(NumpyStyle(name, params))
    ensures Lower(style) == "rest" ==> r == Success(RestStyle(name, params))
  {
    var s := Lower(style);
    if s == "google" then Success(GoogleStyle(name, params))
    else if s == "numpy" then Success(NumpyStyle(name, params))
    else if s == "rest" then Success(RestStyle(name, params))
    else Failure("Unsupported docstring style")
  }

  lemma JoinCons(h: string, t: seq<string>)
    requires t != []
    ensures Join([h] + t) == h + "\n" + Join(t)
  {
    assert ([h] + t)[1..] == t;
  }

  /** Joining three non-empty runs of lines. */
  lemma JoinThree(a: seq<string>, b: seq<string>, c: seq<string>)
    requires a != [] && b != [] && c != []
    ensures Join(a + b + c) == Join(a) + "\n" + Join(b) + "\n" + Join(c)
  {
    JoinAppend(a + b, c);
    JoinAppend(a, b);
  }

  lemma GoogleHead(name: string)
    ensures Join([Quotes, name + " function.", "", "Args:"]) == Quotes + "\n" + name + " function.\n\nArgs:"
  {
    JoinCons("", ["Args:"]);
    JoinCons(name + " function.", ["", "Args:"]);
    JoinCons(Quotes, [name + " function.", "", "Args:"]);
    GoogleHeadLiteral();
  }

  lemma GoogleHeadLiteral()
    ensures " function.\n\nArgs:" == " function." + "\n" + ("" + "\n" + "Args:")
  {
  }

  lemma GoogleTail()
    ensures Join(["", "Returns:", "    value", Quotes, ""]) == "\nReturns:\n    value\n" + Quotes + "\n"
  {
    JoinFive("", "Returns:", "    value", Quotes, "");
  }

  lemma JoinFive(a: string, b: string, c: string, d: string, e: string)
    ensures Join([a, b, c, d, e]) == a + "\n" + b + "\n" + c + "\n" + d + "\n" + e
  {
    JoinCons(d, [e]);
    JoinCons(c, [d, e]);
    JoinCons(b, [c, d, e]);
    JoinCons(a, [b, c, d, e]);
  }

  /** The Google template is exactly its lines joined by breaks. */
  lemma GoogleStyleIsJoin(name: string, params: seq<string>)
    ensures GoogleStyle(name, params) == Join(GoogleLines(name, params))
  {
    var head := [Quotes, name + " function.", "", "Args:"];
    var tail := ["", "Returns:", "    value", Quotes, ""];
    var body := Block(Map(params, GoogleParam));
    assert GoogleLines(name, params) == head + body + tail;
    JoinThree(head, body, tail);
    GoogleHead(name);
    GoogleTail();
    GoogleLiterals();
    Assemble(Quotes, name, " function.\n\nArgs:", Join(Map(params, GoogleParam)), "\nReturns:\n    value\n");
  }

  lemma GoogleLiterals()
    ensures " function.\n\nArgs:\n" == " function.\n\nArgs:" + "\n"
    ensures "\n\nReturns:\n    value\n" == "\n" + "\nReturns:\n    value\n"
  {
  }

  /** The NumPy parameter entries, joined, are their two-line halves joined. */
  lemma {:induction false} NumpyParamsJoin(params: seq<string>)
    ensures Join(Map(params, NumpyParam)) == Join(NumpyParamLines(params))
  {
    if params != [] {
      var init, last := params[..|params| - 1], params[|params| - 1];
      var pair := [last + " : type", "    description"];
      JoinCons(last + " : type", ["    description"]);
      assert Join(pair) == NumpyParam(last);
      if init == [] {
        assert Map(params, NumpyParam) == [NumpyParam(last)];
        assert NumpyParamLines(params) == pair;
      } else {
        NumpyParamsJoin(init);
        assert Map(params, NumpyParam) == Map(init, NumpyParam) + [NumpyParam(last)];
        JoinAppend(Map(init, NumpyParam), [NumpyParam(last)]);
        NumpyParamLinesNonEmpty(init);
        JoinAppend(NumpyParamLines(init), pair);
      }
    }
  }

  lemma NumpyParamLinesNonEmpty(params: seq<string>)
    requires params != []
    ensures |NumpyParamLines(params)| == 2 * |params|
  {
    NumpyParamLinesLength(params);
  }

  lemma {:induction false} NumpyParamLinesLength(params: seq<string>)
    ensures |NumpyParamLines(params)| == 2 * |params|
  {
    if params != [] {
      NumpyParamLinesLength(params[..|params| - 1]);
    }
  }

  lemma NumpyHead(name: string)
    ensures Join([Quotes, name + " function.", "", "Parameters", "----------"])
         == Quotes + "\n" + name + " function.\n\nParameters\n----------"
  {
    JoinFive(Quotes, name + " function.", "", "Parameters", "----------");
    NumpyHeadLiteral();
    Glue(Quotes, name, " function.", "", "Parameters", "----------",
         " function.\n\nParameters\n----------");
  }

  lemma NumpyHeadLiteral()
    ensures " function.\n\nParameters\n----------" == " function." + "\n" + "" + "\n" + "Parameters" + "\n" + "----------"
  {
  }

  /** Regroups the first two joined lines when the second starts with a name. */
  lemma Glue(a: string, n: string, b: string, c: string, d: string, e: string, lit: string)
    requires lit == b + "\n" + c + "\n" + d + "\n" + e
    ensures a + "\n" + (n + b) + "\n" + c + "\n" + d + "\n" + e == a + "\n" + n + lit
  {
  }

  lemma NumpyTail()
    ensures Join(["", "Returns", "-------", "value", Quotes, ""]) == "\nReturns\n-------\nvalue\n" + Quotes + "\n"
  {
    JoinFive("Returns", "-------", "value", Quotes, "");
    JoinCons("", ["Returns", "-------", "value", Quotes, ""]);
    NumpyTailLiteral();
    TailGlue("", "Returns", "-------", "value", Quotes, "\nReturns\n-------\nvalue\n");
  }

  lemma NumpyTailLiteral()
    ensures "\nReturns\n-------\nvalue\n" == "" + "\n" + "Returns" + "\n" + "-------" + "\n" + "value" + "\n"
  {
  }

  /** Regroups a joined tail whose last line is empty. */
  lemma TailGlue(e: string, a: string, b: string, c: string, q: string, lit: string)
    requires lit == e + "\n" + a + "\n" + b + "\n" + c + "\n"
    ensures e + "\n" + (a + "\n" + b + "\n" + c + "\n" + q + "\n" + "") == lit + q + "\n"
  {
  }

  /** The NumPy template is exactly its lines joined by breaks. */
  lemma NumpyStyleIsJoin(name: string, params: seq<string>)
    ensures NumpyStyle(name, params) == Join(NumpyLines(name, params))
  {
    var head := [Quotes, name + " function.", "", "Parameters", "----------"];
    var tail := ["", "Returns", "-------", "value", Quotes, ""];
    var body := Block(NumpyParamLines(params));
    assert NumpyLines(name, params) == head + body + tail;
    NumpyParamsJoin(params);
    JoinThree(head, body, tail);
    NumpyHead(name);
    NumpyTail();
    NumpyLiterals();
    Assemble(Quotes, name, " function.\n\nParameters\n----------", Join(Map(params, NumpyParam)),
             "\nReturns\n-------\nvalue\n");
  }

  lemma NumpyLiterals()
    ensures " function.\n\nParameters\n----------\n" == " function.\n\nParameters\n----------" + "\n"
    ensures "\n\nReturns\n-------\nvalue\n" == "\n" + "\nReturns\n-------\nvalue\n"
  {
    NumpyHeadBreak();
    NumpyTailBreak();
  }

  lemma NumpyHeadBreak()
    ensures " function.\n\nParameters\n----------\n" == " function.\n\nParameters\n----------" + "\n"
  {
  }

  lemma NumpyTailBreak()
    ensures "\n\nReturns\n-------\nvalue\n" == "\n" + "\nReturns\n-------\nvalue\n"
  {
  }

  /** A template `q \n name head \n p \n tail q \n` regrouped around its
      parameter block. */
  lemma Assemble(q: string, name: string, head: string, p: string, tail: string)
    ensures q + "\n" + name + (head + "\n") + p + ("\n" + tail) + q + "\n"
         == (q + "\n" + name + head) + "\n" + p + "\n" + (tail + q + "\n")
  {
  }

  lemma RestHead(name: string)
    ensures Join([Quotes, name + " function.", ""]) == Quotes + "\n" + name + " function.\n"
  {
    JoinCons(name + " function.", [""]);
    JoinCons(Quotes, [name + " function.", ""]);
  }

  lemma RestTail()
    ensures Join([":return: value", Quotes, ""]) == ":return: value\n" + Quotes + "\n"
  {
    JoinCons(Quotes, [""]);
    JoinCons(":return: value", [Quotes, ""]);
  }

  /** The reST template is exactly its lines joined by breaks. */
  lemma RestStyleIsJoin(name: string, params: seq<string>)
    ensures RestStyle(name, params) == Join(RestLines(name, params))
  {
    var head := [Quotes, name + " function.", ""];
    var tail := [":return: value", Quotes, ""];
    var body := Block(Map(params, RestParam));
    assert RestLines(name, params) == head + body + tail;
    JoinThree(head, body, tail);
    RestHead(name);
    RestTail();
    RestLiterals();
    Assemble(Quotes, name, " function.\n", Join(Map(params, RestParam)), ":return: value\n");
  }

  lemma RestLiterals()
    ensures " function.\n\n" == " function.\n" + "\n"
    ensures "\n:return: value\n" == "\n" + ":return: value\n"
  {
  }

  /** With a name and parameters free of line breaks, the Google output
      reads line by line: the delimiter, `<name> function.`, a blank, `Args:`,
      one `    <p>: description` per parameter in order (one blank line when
      there are none), a blank, `Returns:`, `    value`, the delimiter. */
  lemma GoogleStyleLines(name: string, params: seq<string>)
    requires NoNewline(name) && AllNoNewline(params)
    ensures var lines := Split(GoogleStyle(name, params));
      |lines| == 9 + (if params == [] then 1 else |params|)
      && lines[0] == Quotes && lines[1] == name + " function." && lines[2] == "" && lines[3] == "Args:"
      && (forall i :: 0 <= i < |params| ==> lines[4 + i] == "    " + params[i] + ": description")
      && lines[|lines| - 5..] == ["", "Returns:", "    value", Quotes, ""]
  {
    GoogleStyleIsJoin(name, params);
    GoogleLinesNoNewline(name, params);
    SplitJoin(GoogleLines(name, params));
  }

  lemma GoogleLinesNoNewline(name: string, params: seq<string>)
    requires NoNewline(name) && AllNoNewline(params)
    ensures AllNoNewline(GoogleLines(name, params))
  {
    var head := [Quotes, name + " function.", "", "Args:"];
    var body := Block(Map(params, GoogleParam));
    var tail := ["", "Returns:", "    value", Quotes, ""];
    assert GoogleLines(name, params) == head + body + tail;
    assert AllNoNewline(head) by {
      assert NoNewline(name + " function.");
    }
    assert AllNoNewline(body) by {
      forall k | 0 <= k < |params| ensures NoNewline(GoogleParam(params[k])) {
        assert NoNewline(params[k]);
      }
    }
    assert AllNoNewline(tail);
    AllNoNewlineThree(head, body, tail);
  }

  /** Three runs of lines free of breaks, concatenated. */
  lemma AllNoNewlineThree(a: seq<string>, b: seq<string>, c: seq<string>)
    requires AllNoNewline(a) && AllNoNewline(b) && AllNoNewline(c)
    ensures AllNoNewline(a + b + c)
  {
    var r := a + b + c;
    forall k | 0 <= k < |r| ensures NoNewline(r[k]) {
      if k < |a| {
        assert r[k] == a[k];
      } else if k < |a| + |b| {
        assert r[k] == b[k - |a|];
      } else {
        assert r[k] == c[k - |a| - |b|];
      }
    }
  }

  /** The NumPy output line by line: a `Parameters` header underlined with
      dashes, then `<p> : type` and `    description` for each parameter in
      order, then a `Returns` header underlined with dashes and `value`. */
  lemma NumpyStyleLines(name: string, params: seq<string>)
    requires NoNewline(name) && AllNoNewline(params)
    ensures var lines := Split(NumpyStyle(name, params));
      |lines| == 11 + (if params == [] then 1 else 2 * |params|)
      && lines[0] == Quotes && lines[1] == name + " function." && lines[2] == ""
      && lines[3] == "Parameters" && lines[4] == "----------"
      && (forall i :: 0 <= i < |params| ==>
            lines[5 + 2 * i] == params[i] + " : type" && lines[6 + 2 * i] == "    description")
      && lines[|lines| - 6..] == ["", "Returns", "-------", "value", Quotes, ""]
  {
    NumpyStyleIsJoin(name, params);
    NumpyLinesNoNewline(name, params);
    SplitJoin(NumpyLines(name, params));
    NumpyLinesAt(name, params);
  }

  lemma NumpyLinesNoNewline(name: string, params: seq<string>)
    requires NoNewline(name) && AllNoNewline(params)
    ensures AllNoNewline(NumpyLines(name, params))
  {
    var head := [Quotes, name + " function.", "", "Parameters", "----------"];
    var body := Block(NumpyParamLines(params));
    var tail := ["", "Returns", "-------", "value", Quotes, ""];
    assert NumpyLines(name, params) == head + body + tail;
    assert AllNoNewline(head) by {
      assert NoNewline(name + " function.");
    }
    NumpyParamLinesNoNewline(params);
    assert AllNoNewline(tail);
    AllNoNewlineThree(head, body, tail);
  }

  lemma NumpyLinesAt(name: string, params: seq<string>)
    ensures var lines := NumpyLines(name, params);
      |lines| == 11 + (if params == [] then 1 else 2 * |params|)
      && lines[0] == Quotes && lines[1] == name + " function." && lines[2] == ""
      && lines[3] == "Parameters" && lines[4] == "----------"
      && (forall i :: 0 <= i < |params| ==>
            lines[5 + 2 * i] == params[i] + " : type" && lines[6 + 2 * i] == "    description")
      && lines[|lines| - 6..] == ["", "Returns", "-------", "value", Quotes, ""]
  {
    NumpyParamLinesAt(params);
    var head := [Quotes, name + " function.", "", "Parameters", "----------"];
    var body := Block(NumpyParamLines(params));
    var tail := ["", "Returns", "-------", "value", Quotes, ""];
    var lines := NumpyLines(name, params);
    assert lines == head + body + tail;
    forall i | 0 <= i < |params|
      ensures lines[5 + 2 * i] == params[i] + " : type" && lines[6 + 2 * i] == "    description"
    {
      assert lines[5 + 2 * i] == body[2 * i];
      assert lines[6 + 2 * i] == body[2 * i + 1];
    }
  }

  lemma {:induction false} NumpyParamLinesNoNewline(params: seq<string>)
    requires AllNoNewline(params)
    ensures AllNoNewline(NumpyParamLines(params))
  {
    if params != [] {
      var init := params[..|params| - 1];
      assert AllNoNewline(init) by {
        forall k | 0 <= k < |init| ensures NoNewline(init[k]) {
          assert init[k] == params[k];
        }
      }
      NumpyParamLinesNoNewline(init);
      NumpyParamLinesLength(init);
      var last := params[|params| - 1];
      assert NoNewline(last);
      assert NoNewline(last + " : type");
    }
  }

  lemma {:induction false} NumpyParamLinesAt(params: seq<string>)
    ensures |NumpyParamLines(params)| == 2 * |params|
    ensures forall i :: 0 <= i < |params| ==>
      NumpyParamLines(params)[2 * i] == params[i] + " : type"
      && NumpyParamLines(params)[2 * i + 1] == "    description"
  {
    NumpyParamLinesLength(params);
    if params != [] {
      var init := params[..|params| - 1];
      NumpyParamLinesAt(init);
      forall i | 0 <= i < |params|
        ensures NumpyParamLines(params)[2 * i] == params[i] + " : type"
        ensures NumpyParamLines(params)[2 * i + 1] == "    description"
      {
        if i < |init| {
          assert params[i] == init[i];
        }
      }
    }
  }

  /** The reST output line by line: one `:param <p>: description` per
      parameter in order, then `:return: value`. */
  lemma RestStyleLines(name: string, params: seq<string>)
    requires NoNewline(name) && AllNoNewline(params)
    ensures var lines := Split(RestStyle(name, params));
      |lines| == 6 + (if params == [] then 1 else |params|)
      && lines[0] == Quotes && lines[1] == name + " function." && lines[2] == ""
      && (forall i :: 0 <= i < |params| ==> lines[3 + i] == ":param " + params[i] + ": description")
      && lines[|lines| - 3..] == [":return: value", Quotes, ""]
  {
    RestStyleIsJoin(name, params);
    RestLinesNoNewline(name, params);
    SplitJoin(RestLines(name, params));
  }

  lemma RestLinesNoNewline(name: string, params: seq<string>)
    requires NoNewline(name) && AllNoNewline(params)
    ensures AllNoNewline(RestLines(name, params))
  {
    var head := [Quotes, name + " function.", ""];
    var body := Block(Map(params, RestParam));
    var tail := [":return: value", Quotes, ""];
    assert RestLines(name, params) == head + body + tail;
    assert AllNoNewline(head) by {
      assert NoNewline(name + " function.");
    }
    assert AllNoNewline(body) by {
      forall k | 0 <= k < |params| ensures NoNewline(RestParam(params[k])) {
        assert NoNewline(params[k]);
      }
    }
    assert AllNoNewline(tail);
    AllNoNewlineThree(head, body, tail);
  }

  /** The style name is case-insensitive: "Google" and "google" select the
      same template. */
  lemma StyleCaseInsensitive(name: string, params: seq<string>, style: string)
    ensures GenerateDocstring(name, params, style) == GenerateDocstring(name, params, Lower(style))
  {
    LowerIdempotent(style);
  }

  /** Without a style the Google template is used; "Google" selects it too. */
  lemma DefaultStyleIsGoogle(name: string, params: seq<string>)
    ensures GenerateDocstring(name, params) == Success(GoogleStyle(name, params))
    ensures GenerateDocstring(name, params, "Google") == Success(GoogleStyle(name, params))
  {
    assert Lower("google") == "google";
    assert Lower("Google") == "google";
  }
}
