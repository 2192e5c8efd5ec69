/** The PEP 257 validation report: the strict-mode normaliser, a line-level
    state machine, and the status/count wrapper around the style checker,
    which is a parameter here. */
module Validation {
  import opened Wrappers
  import opened Seqs
  import opened Text
  import StyledGenerator

  /** `{"status", "count", "violations"}`. */
  datatype ValidationResult = ValidationResult(status: string, count: nat, violations: seq<string>)

  /** The report for a list of violations. */
  function ResultOf(violations: seq<string>): (r: ValidationResult)
    ensures r.violations == violations && r.count == |violations|
    ensures r.status == "Pass" || r.status == "Fail"
    ensures r.status == "Pass" <==> violations == []
  {
    ValidationResult(if violations == [] then "Pass" else "Fail", |violations|, violations)
  }

  /** `line.strip().startswith(prefix)`. */
  predicate StrippedStarts(line: string, prefix: string)
  {
    StartsWith(Strip(line), prefix)
  }

  /** A header line: stripped, it starts with `def ` or `class `. */
  predicate IsHeader(line: string)
  {
    StrippedStarts(line, "def ") || StrippedStarts(line, "class ")
  }

  predicate IsBlank(line: string)
  {
    Strip(line) == ""
  }

  predicate NonBlank(line: string)
  {
    !IsBlank(line)
  }

  /** The normaliser's state: the lines emitted so far and its two flags. */
  datatype Norm = Norm(normalized: seq<string>, afterClassDocstring: bool, inClass: bool)

  /** One iteration of the normaliser's loop over a line. */
  function Step(st: Norm, line: string): Norm
  {
    if StrippedStarts(line, "class ") then Norm(st.normalized + [line], st.afterClassDocstring, true)
    else if st.inClass && StrippedStarts(line, StyledGenerator.Quotes) then Norm(st.normalized + [line], true, false)
    else
      var out := if st.afterClassDocstring then st.normalized + [""] else st.normalized;
      if StrippedStarts(line, "def ") then Norm(out + [line], false, st.inClass)
      else if out != [] && IsHeader(out[|out| - 1]) && Strip(line) == "" then Norm(out, false, st.inClass)
      else Norm(out + [line], false, st.inClass)
  }

  /** The state after the loop has consumed `lines`. */
  function Run(lines: seq<string>): Norm
  {
    if lines == [] then Norm([], false, false)
    else Step(Run(lines[..|lines| - 1]), lines[|lines| - 1])
  }

  /** `_normalize_for_strict_pep257(source_code)`. */
  function Normalized(source: string): string
  {
    Join(Run(SplitLines(source)).normalized)
  }

  /** `_normalize_for_strict_pep257(source_code)`: one pass over the lines
      with the `in_class` and `after_class_docstring` flags. */
  method NormalizeForStrictPep257(source: string) returns (r: string)
    ensures r == Normalized(source)
  {
    var lines := SplitLines(source);
    var normalized: seq<string> := [];
    var afterClassDocstring := false;
    var inClass := false;
    var i := 0;
    while i < |lines|
      invariant i <= |lines|
      invariant Run(lines[..i]) == Norm(normalized, afterClassDocstring, inClass)
    {
      assert lines[..i + 1][..i] == lines[..i];
      normalized, afterClassDocstring, inClass := NormalizeLine(normalized, afterClassDocstring, inClass, lines[i]);
      i := i + 1;
    }
    assert lines[..i] == lines;
    return Join(normalized);
  }

  /** The body of the normaliser's loop for one line. */
  method NormalizeLine(normalized: seq<string>, afterClassDocstring: bool, inClass: bool, line: string)
    returns (normalized': seq<string>, afterClassDocstring': bool, inClass': bool)
    ensures Norm(normalized', afterClassDocstring', inClass') == Step(Norm(normalized, afterClassDocstring, inClass), line)
  {
    normalized', afterClassDocstring', inClass' := normalized, afterClassDocstring, inClass;
    var stripped := Strip(line);
    if StartsWith(stripped, "class ") {
      inClass' := true;
      normalized' := normalized' + [line];
    } else if inClass' && StartsWith(stripped, StyledGenerator.Quotes) {
      normalized' := normalized' + [line];
      afterClassDocstring' := true;
      inClass' := false;
    } else {
      if afterClassDocstring' {
        normalized' := normalized' + [""];
        afterClassDocstring' := false;
      }
      ghost var out := normalized';
      if StartsWith(stripped, "def ") {
        normalized' := normalized' + [line];
      } else if normalized' != [] && (StartsWith(Strip(normalized'[|normalized'| - 1]), "def ")
                                      || StartsWith(Strip(normalized'[|normalized'| - 1]), "class "))
                && stripped == "" {
        assert IsHeader(out[|out| - 1]);
      } else {
        normalized' := normalized' + [line];
      }
      OtherStep(Norm(normalized, afterClassDocstring, inClass), line, out);
    }
  }

  /** A line that is neither a class header nor a class docstring: the
      pending empty line first, then the line unless it is a blank after a header. */
  lemma OtherStep(st: Norm, line: string, out: seq<string>)
    requires !StrippedStarts(line, "class ")
    requires !(st.inClass && StrippedStarts(line, StyledGenerator.Quotes))
    requires out == if st.afterClassDocstring then st.normalized + [""] else st.normalized
    ensures Step(st, line) == if StrippedStarts(line, "def ") then Norm(out + [line], false, st.inClass)
      else if out != [] && IsHeader(out[|out| - 1]) && Strip(line) == "" then Norm(out, false, st.inClass)
      else Norm(out + [line], false, st.inClass)
  {
  }

  /** One step drops a line exactly when it is blank, no class docstring is
      pending, and the last line emitted is a header; otherwise it emits the
      line, preceded by an empty line exactly when a class docstring was
      pending and the line is neither a class header nor a class docstring. */
  lemma StepEffect(st: Norm, line: string)
    ensures var s := Step(st, line).normalized;
      (s == st.normalized <==>
         (IsBlank(line) && !st.afterClassDocstring && st.normalized != []
          && IsHeader(st.normalized[|st.normalized| - 1])))
      && (s != st.normalized ==>
            s == st.normalized + [line] || (st.afterClassDocstring && s == st.normalized + ["", line]))
  {
    if IsBlank(line) {
      assert !StartsWith(Strip(line), "class ");
      assert !StartsWith(Strip(line), StyledGenerator.Quotes);
      assert !StartsWith(Strip(line), "def ");
      if st.afterClassDocstring {
        assert !IsHeader("") by {
          assert Strip("") == "";
        }
      }
    } else {
      assert Strip(line) != "";
    }
  }

  /** One step keeps the non-blank lines: it emits the line, after an
      empty one or not, or drops it when it is blank. */
  lemma StepKeepsNonBlank(st: Norm, line: string)
    ensures Filter(Step(st, line).normalized, NonBlank)
            == Filter(st.normalized, NonBlank) + (if NonBlank(line) then [line] else [])
  {
    StepEffect(st, line);
    EmitKeepsNonBlank(st.normalized, Step(st, line).normalized, line);
  }

  /** Emitting a line, after an empty one or not, or dropping a blank one,
      extends the non-blank lines by that line when it is non-blank. */
  lemma EmitKeepsNonBlank(a: seq<string>, s: seq<string>, line: string)
    requires s == a + [line] || s == a + ["", line] || (s == a && IsBlank(line))
    ensures Filter(s, NonBlank) == Filter(a, NonBlank) + (if NonBlank(line) then [line] else [])
  {
    if s == a + [line] {
      FilterSnoc(a, line);
    } else if s == a + ["", line] {
      assert a + ["", line] == (a + [""]) + [line];
      FilterSnoc(a + [""], line);
      FilterSnoc(a, "");
      assert !NonBlank("") by {
        assert Strip("") == "";
      }
    }
  }

  lemma FilterSnoc(a: seq<string>, x: string)
    ensures Filter(a + [x], NonBlank) == Filter(a, NonBlank) + (if NonBlank(x) then [x] else [])
  {
    assert (a + [x])[..|a|] == a;
  }

  /** The non-blank lines come out exactly as they went in, in order: the
      normaliser only inserts empty lines and drops blank ones. */
  lemma {:induction false} KeepsNonBlankLines(lines: seq<string>)
    ensures Filter(Run(lines).normalized, NonBlank) == Filter(lines, NonBlank)
  {
    if lines != [] {
      var init, line := lines[..|lines| - 1], lines[|lines| - 1];
      KeepsNonBlankLines(init);
      StepKeepsNonBlank(Run(init), line);
    }
  }

  predicate IsClassLine(line: string)
  {
    StrippedStarts(line, "class ")
  }

  /** One pending flag per class header not yet followed by its empty line. */
  function Pending(st: Norm): nat
  {
    (if st.afterClassDocstring then 1 else 0) + (if st.inClass then 1 else 0)
  }

  /** Every empty line the normaliser adds is paid for by a class header:
      the output has at most as many lines as the input plus its class
      headers, so without class headers it never grows. */
  lemma {:induction false} LengthBound(lines: seq<string>)
    ensures |Run(lines).normalized| + Pending(Run(lines)) <= |lines| + Count(lines, IsClassLine)
    ensures |Run(lines).normalized| <= |lines| + Count(lines, IsClassLine)
  {
    if lines != [] {
      var init := lines[..|lines| - 1];
      LengthBound(init);
    }
  }

  /** Where the empty line lands: before the first line after a class
      docstring's opening line, so in a docstring that spans several lines
      it goes inside the string literal, after the line that opens it. */
  lemma MultiLineClassDocstring()
    ensures Run(["class A:", "    \"\"\"Summary.", "    More.\"\"\""]).normalized
            == ["class A:", "    \"\"\"Summary.", "", "    More.\"\"\""]
  {
    HeaderLine();
    OpeningLine();
    ClosingLine();
    DocstringThenLine("class A:", "    \"\"\"Summary.", "    More.\"\"\"");
  }

  lemma HeaderLine()
    ensures StrippedStarts("class A:", "class ")
  {
    StripLiteral("class A:", "class A:");
    assert "class A:"[..6] == "class ";
  }

  lemma OpeningLine()
    ensures !StrippedStarts("    \"\"\"Summary.", "class ")
    ensures StrippedStarts("    \"\"\"Summary.", StyledGenerator.Quotes)
  {
    StripLiteral("    \"\"\"Summary.", "\"\"\"Summary.");
    assert "\"\"\"Summary."[..3] == StyledGenerator.Quotes;
    assert "\"\"\"Summary."[0] != "class "[0];
  }

  lemma ClosingLine()
    ensures !StrippedStarts("    More.\"\"\"", "class ")
  {
    StripLiteral("    More.\"\"\"", "More.\"\"\"");
    assert "More.\"\"\""[0] != "class "[0];
  }

  /** A class header, a line opening its docstring, then any line that is
      not a class header: the empty line goes between the second and the
      third, whatever the third holds. */
  lemma DocstringThenLine(l0: string, l1: string, l2: string)
    requires StrippedStarts(l0, "class ")
    requires !StrippedStarts(l1, "class ") && StrippedStarts(l1, StyledGenerator.Quotes)
    requires !StrippedStarts(l2, "class ")
    ensures Run([l0, l1, l2]).normalized == [l0, l1, "", l2]
  {
    assert [l0, l1, l2][..2] == [l0, l1] && [l0, l1][..1] == [l0] && [l0][..0] == [];
    assert Run([l0]) == Norm([l0], false, true);
    assert Run([l0, l1]) == Norm([l0, l1], true, false);
  }

  /** `Strip` on a text line indented by four spaces or not at all. */
  lemma StripLiteral(line: string, text: string)
    requires text != [] && !IsSpace(text[0]) && !IsSpace(text[|text| - 1])
    requires line == text || line == "    " + text
    ensures Strip(line) == text
  {
    if line != text {
      assert line == " " + (" " + (" " + (" " + text)));
      SkipSpace(" " + (" " + (" " + text)));
      SkipSpace(" " + (" " + text));
      SkipSpace(" " + text);
      SkipSpace(text);
    }
  }

  lemma SkipSpace(t: string)
    ensures TrimStart(" " + t) == TrimStart(t)
  {
    assert (" " + t)[1..] == t;
    assert IsSpace(' ');
  }

  /** The ten checks the relaxed mode tells the checker to ignore. */
  const RelaxedIgnore: seq<string> :=
    ["D100", "D201", "D202", "D203", "D204", "D211", "D212", "D401", "D412", "D413"]

  /** The style checker over a text: the ignore list it is given, or None for
      its defaults; it returns the violation messages. */
  type Checker = (string, Option<seq<string>>) -> seq<string>

  /** What is checked: the normalised text with the checker's defaults in
      strict mode, the text as given with the ten codes ignored otherwise. */
  function CheckedText(source: string, mode: string): string
  {
    if mode == "strict" then Normalized(source) else source
  }

  function IgnoreFor(mode: string): Option<seq<string>>
  {
    if mode == "strict" then None else Some(RelaxedIgnore)
  }

  /** `validate_docstrings(source_code, mode)`: the checker's messages, one
      violation each, wrapped in the report.  The temporary file is the
      checker's input text. */
  method ValidateDocstrings(source: string, check: Checker, mode: string := "relaxed") returns (r: ValidationResult)
    ensures r == ResultOf(check(CheckedText(source, mode), IgnoreFor(mode)))
  {
    var sourceCode := source;
    if mode == "strict" {
      sourceCode := NormalizeForStrictPep257(source);
    }
    var errors: seq<string>;
    if mode == "strict" {
      errors := check(sourceCode, None);
    } else {
      errors := check(sourceCode, Some(RelaxedIgnore));
    }
    assert errors == check(CheckedText(source, mode), IgnoreFor(mode));
    var violations: seq<string> := [];
    var i := 0;
    while i < |errors|
      invariant i <= |errors|
      invariant violations == errors[..i]
    {
      violations := violations + [errors[i]];
      i := i + 1;
    }
    assert errors[..i] == errors;
    return ValidationResult(if violations == [] then "Pass" else "Fail", |violations|, violations);
  }
}
