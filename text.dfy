/** The string operations the tool relies on, modelled for text whose only
    line break is '\n': `str.split("\n")`, `"\n".join`, `str.splitlines`,
    `str.strip`, `str.startswith`, `str.lower` and `str.replace` of a newline. */
module Text {

  predicate NoNewline(s: string)
  {
    '\n' !in s
  }

  predicate AllNoNewline(lines: seq<string>)
  {
    forall k :: 0 <= k < |lines| ==> NoNewline(lines[k])
  }

  /** `s.split("\n")`: the pieces between line breaks, always at least one. */
  function Split(s: string): (r: seq<string>)
    ensures |r| >= 1
    ensures AllNoNewline(r)
  {
    if s == [] then [""]
    else
      var rest := Split(s[1..]);
      if s[0] == '\n' then [""] + rest
      else [[s[0]] + rest[0]] + rest[1..]
  }

  /** `sep.join(lines)`. */
  function JoinWith(lines: seq<string>, sep: string): string
  {
    if lines == [] then ""
    else if |lines| == 1 then lines[0]
    else lines[0] + sep + JoinWith(lines[1..], sep)
  }

  /** `"\n".join(lines)`. */
  function Join(lines: seq<string>): string
  {
    JoinWith(lines, "\n")
  }

  lemma {:induction false} JoinConsHead(c: string, h: string, t: seq<string>)
    ensures Join([c + h] + t) == c + Join([h] + t)
  {
    if t != [] {
      assert ([c + h] + t)[1..] == t;
      assert ([h] + t)[1..] == t;
    }
  }

  /** Joining two non-empty runs of lines puts one line break between them. */
  lemma {:induction false} JoinAppend(a: seq<string>, b: seq<string>)
    requires a != [] && b != []
    ensures Join(a + b) == Join(a) + "\n" + Join(b)
  {
    assert (a + b)[0] == a[0];
    assert (a + b)[1..] == a[1..] + b;
    if |a| > 1 {
      JoinAppend(a[1..], b);
    }
  }

  /** Joining the pieces of a split gives the text back. */
  lemma {:induction false} JoinSplit(s: string)
    ensures Join(Split(s)) == s
  {
    if s != [] {
      var rest := Split(s[1..]);
      JoinSplit(s[1..]);
      if s[0] == '\n' {
        assert ([""] + rest)[1..] == rest;
        assert s == "\n" + s[1..];
      } else {
        assert rest == [rest[0]] + rest[1..];
        JoinConsHead([s[0]], rest[0], rest[1..]);
        assert s == [s[0]] + s[1..];
      }
    }
  }

  lemma {:induction false} SplitPrefix(a: string, t: string)
    requires NoNewline(a)
    ensures Split(a + t) == [a + Split(t)[0]] + Split(t)[1..]
  {
    if a != [] {
      assert (a + t)[1..] == a[1..] + t;
      assert a[1..] + t == (a + t)[1..];
      SplitPrefix(a[1..], t);
      var st := Split(t);
      var rest := Split((a + t)[1..]);
      assert rest == [a[1..] + st[0]] + st[1..];
      assert (a + t)[0] == a[0] && a[0] != '\n';
      assert Split(a + t) == [[a[0]] + rest[0]] + rest[1..];
      assert [a[0]] + (a[1..] + st[0]) == a + st[0];
    } else {
      assert a + t == t;
      assert a + Split(t)[0] == Split(t)[0];
      assert Split(t) == [Split(t)[0]] + Split(t)[1..];
    }
  }

  /** Splitting a join of newline-free lines gives the lines back. */
  lemma {:induction false} SplitJoin(lines: seq<string>)
    requires lines != [] && AllNoNewline(lines)
    ensures Split(Join(lines)) == lines
  {
    if |lines| == 1 {
      SplitPrefix(lines[0], "");
      assert lines[0] + "" == lines[0];
    } else {
      var tail := lines[1..];
      SplitJoin(tail);
      var t := "\n" + Join(tail);
      assert Join(lines) == lines[0] + t;
      assert t[1..] == Join(tail);
      SplitPrefix(lines[0], t);
      assert Split(t) == [""] + tail;
      assert lines[0] + "" == lines[0];
    }
  }

  /** `s.splitlines()` for text whose only line break is '\n': like `Split`,
      except that the empty text has no lines and a final line break does not
      start a further, empty line. */
  function SplitLines(s: string): (r: seq<string>)
    ensures AllNoNewline(r)
    ensures Join(r) == if s != [] && s[|s| - 1] == '\n' then s[..|s| - 1] else s
  {
    if s == [] then []
    else if s[|s| - 1] == '\n' then JoinSplit(s[..|s| - 1]); Split(s[..|s| - 1])
    else JoinSplit(s); Split(s)
  }

  /** Python's `str.isspace` for one character. */
  predicate IsSpace(c: char)
  {
    var n := c as int;
    (0x09 <= n <= 0x0D) || (0x1C <= n <= 0x20) || n == 0x85 || n == 0xA0 || n == 0x1680
    || (0x2000 <= n <= 0x200A) || n == 0x2028 || n == 0x2029 || n == 0x202F || n == 0x205F
    || n == 0x3000
  }

  function TrimStart(s: string): (r: string)
    ensures |r| <= |s|
    ensures r != [] ==> !IsSpace(r[0])
    ensures r == [] <==> forall k :: 0 <= k < |s| ==> IsSpace(s[k])
  {
    if s != [] && IsSpace(s[0]) then TrimStart(s[1..]) else s
  }

  function TrimEnd(s: string): (r: string)
    ensures |r| <= |s|
    ensures r == [] <==> forall k :: 0 <= k < |s| ==> IsSpace(s[k])
  {
    if s != [] && IsSpace(s[|s| - 1]) then TrimEnd(s[..|s| - 1]) else s
  }

  /** `s.strip()`: empty exactly when the text is all whitespace. */
  function Strip(s: string): (r: string)
    ensures |r| <= |s|
    ensures r == [] <==> forall k :: 0 <= k < |s| ==> IsSpace(s[k])
  {
    TrimEnd(TrimStart(s))
  }

  predicate StartsWith(s: string, prefix: string)
  {
    |prefix| <= |s| && s[..|prefix|] == prefix
  }

  /** `str.lower()` restricted to ASCII letters; every other character is kept. */
  function Lower(s: string): (r: string)
    ensures |r| == |s|
  {
    if s == [] then []
    else
      var c := s[0];
      [if 'A' <= c <= 'Z' then (c as int + 32) as char else c] + Lower(s[1..])
  }

  /** Lower-casing twice is lower-casing once. */
  lemma {:induction false} LowerIdempotent(s: string)
    ensures Lower(Lower(s)) == Lower(s)
  {
    if s != [] {
      LowerIdempotent(s[1..]);
      assert Lower(s)[1..] == Lower(s[1..]);
    }
  }

  /** `" " * n`. */
  function Spaces(n: nat): (r: string)
    ensures |r| == n
    ensures forall k :: 0 <= k < n ==> r[k] == ' '
  {
    seq(n, _ => ' ')
  }

  /** `s.replace("\n", rep)`. */
  function ReplaceNewlines(s: string, rep: string): string
  {
    if s == [] then []
    else (if s[0] == '\n' then rep else [s[0]]) + ReplaceNewlines(s[1..], rep)
  }

  lemma {:induction false} ReplaceNewlinesAppend(a: string, b: string, rep: string)
    ensures ReplaceNewlines(a + b, rep) == ReplaceNewlines(a, rep) + ReplaceNewlines(b, rep)
  {
    if a != [] {
      assert (a + b)[1..] == a[1..] + b;
      ReplaceNewlinesAppend(a[1..], b, rep);
    } else {
      assert a + b == b;
    }
  }

  lemma {:induction false} ReplaceNewlinesFree(a: string, rep: string)
    requires NoNewline(a)
    ensures ReplaceNewlines(a, rep) == a
  {
    if a != [] {
      ReplaceNewlinesFree(a[1..], rep);
      assert a == [a[0]] + a[1..];
    }
  }

  /** Replacing the line breaks of a join re-joins the lines with the replacement. */
  lemma {:induction false} ReplaceNewlinesJoin(lines: seq<string>, rep: string)
    requires AllNoNewline(lines)
    ensures ReplaceNewlines(Join(lines), rep) == JoinWith(lines, rep)
  {
    if |lines| == 1 {
      ReplaceNewlinesFree(lines[0], rep);
    } else if |lines| > 1 {
      ReplaceNewlinesJoin(lines[1..], rep);
      ReplaceNewlinesFree(lines[0], rep);
      assert Join(lines) == lines[0] + ("\n" + Join(lines[1..]));
      ReplaceNewlinesAppend(lines[0], "\n" + Join(lines[1..]), rep);
      ReplaceNewlinesAppend("\n", Join(lines[1..]), rep);
      assert ReplaceNewlines("\n", rep) == rep by {
        assert "\n"[1..] == [];
        assert rep + [] == rep;
      }
    }
  }

  /** Text appended to a join extends its last line. */
  lemma {:induction false} JoinSnoc(lines: seq<string>, c: string)
    requires lines != []
    ensures Join(lines) + c == Join(lines[..|lines| - 1] + [lines[|lines| - 1] + c])
  {
    var lines' := lines[..|lines| - 1] + [lines[|lines| - 1] + c];
    if |lines| > 1 {
      JoinSnoc(lines[1..], c);
      assert lines'[0] == lines[0];
      assert lines'[1..] == lines[1..][..|lines| - 2] + [lines[|lines| - 1] + c];
    }
  }
}
