/** The label parser of the image-classification demo (demos/index.js): the
    synset text is split into lines, blank lines are skipped, and each other
    line yields the text after its first space, cut at the first comma. */
module Synset {

  /** JavaScript's `s.split(sep)` for a one-character separator: the pieces
      between separators, always at least one (`"".split(sep)` is `[""]`). */
  function Split(s: string, sep: char): (parts: seq<string>)
    ensures |parts| >= 1
    decreases |s|
  {
    if |s| == 0 then [""]
    else
      var rest := Split(s[1..], sep);
      if s[0] == sep then [""] + rest
      else [[s[0]] + rest[0]] + rest[1..]
  }

  /** JavaScript's `parts.join(sep)` (`[].join(sep)` is `""`). */
  function Join(parts: seq<string>, sep: char): string
  {
    if |parts| == 0 then ""
    else if |parts| == 1 then parts[0]
    else parts[0] + [sep] + Join(parts[1..], sep)
  }

  /** `join` undoes `split`. */
  lemma {:induction false} JoinSplit(s: string, sep: char)
    ensures Join(Split(s, sep), sep) == s
    decreases |s|
  {
    if |s| > 0 {
      var rest := Split(s[1..], sep);
      JoinSplit(s[1..], sep);
      if s[0] == sep {
        assert Split(s, sep) == [""] + rest;
        assert s == [sep] + s[1..];
      } else if |rest| == 1 {
        assert s == [s[0]] + s[1..];
      } else {
        assert Split(s, sep)[1..] == rest[1..];
        assert s == [s[0]] + s[1..];
      }
    }
  }

  /** No piece of a split contains the separator. */
  lemma {:induction false} SplitPiecesFree(s: string, sep: char)
    ensures forall i :: 0 <= i < |Split(s, sep)| ==> sep !in Split(s, sep)[i]
    decreases |s|
  {
    if |s| > 0 {
      SplitPiecesFree(s[1..], sep);
    }
  }

  /** The text before the first `c` (all of `s` when there is none). */
  function BeforeFirst(s: string, c: char): (r: string)
    ensures c !in r
    ensures |r| <= |s| && r == s[..|r|]
    ensures |r| < |s| ==> s[|r|] == c
  {
    if |s| == 0 || s[0] == c then "" else [s[0]] + BeforeFirst(s[1..], c)
  }

  /** The text after the first `c` (empty when there is none). */
  function AfterFirst(s: string, c: char): (r: string)
    ensures c !in s ==> r == ""
    ensures c in s ==> s == BeforeFirst(s, c) + [c] + r
  {
    if |s| == 0 then ""
    else if s[0] == c then s[1..]
    else
      assert s == [s[0]] + s[1..];
      AfterFirst(s[1..], c)
  }

  /** The first piece of a split is the text before the first separator. */
  lemma {:induction false} SplitHead(s: string, sep: char)
    ensures Split(s, sep)[0] == BeforeFirst(s, sep)
    decreases |s|
  {
    if |s| > 0 && s[0] != sep {
      SplitHead(s[1..], sep);
    }
  }

  /** Joining all pieces but the first gives the text after the first separator:
      `split(sep).slice(1).join(sep)`. */
  lemma {:induction false} SplitTail(s: string, sep: char)
    ensures Join(Split(s, sep)[1..], sep) == AfterFirst(s, sep)
    decreases |s|
  {
    if |s| > 0 {
      var rest := Split(s[1..], sep);
      if s[0] == sep {
        assert Split(s, sep)[1..] == rest;
        JoinSplit(s[1..], sep);
      } else {
        assert Split(s, sep)[1..] == rest[1..];
        SplitTail(s[1..], sep);
      }
    }
  }

  /** The characters `String.prototype.trim` removes: white space and line terminators. */
  predicate IsJsWhitespace(ch: char)
  {
    var n := ch as int;
    n == 0x09 || n == 0x0A || n == 0x0B || n == 0x0C || n == 0x0D || n == 0x20
    || n == 0xA0 || n == 0x1680 || (0x2000 <= n <= 0x200A) || n == 0x2028 || n == 0x2029
    || n == 0x202F || n == 0x205F || n == 0x3000 || n == 0xFEFF
  }

  predicate AllWhitespace(s: string)
  {
    forall i :: 0 <= i < |s| ==> IsJsWhitespace(s[i])
  }

  lemma WhitespaceCons(c: char, t: string)
    requires IsJsWhitespace(c) && AllWhitespace(t)
    ensures AllWhitespace([c] + t)
  {
    assert forall i :: 0 < i <= |t| ==> ([c] + t)[i] == t[i - 1];
  }

  /** JavaScript's `s.trimStart()`: drop leading white space. The result is the
      suffix left after a run of white space, and it does not start with white
      space, so exactly the leading white space is removed. */
  function TrimStart(s: string): (r: string)
    ensures |r| <= |s| && r == s[|s| - |r|..]
    ensures AllWhitespace(s[..|s| - |r|])
    ensures |r| > 0 ==> !IsJsWhitespace(r[0])
    decreases |s|
  {
    if |s| > 0 && IsJsWhitespace(s[0]) then
      var r := TrimStart(s[1..]);
      var dropped := s[1..][..|s| - 1 - |r|];
      assert s[..|s| - |r|] == [s[0]] + dropped;
      WhitespaceCons(s[0], dropped);
      r
    else s
  }

  /** JavaScript's `s.trimEnd()`: drop trailing white space. The result is the
      prefix left before a run of white space, and it does not end in white
      space, so exactly the trailing white space is removed. */
  function TrimEnd(s: string): (r: string)
    ensures |r| <= |s| && r == s[..|r|]
    ensures AllWhitespace(s[|r|..])
    ensures |r| > 0 ==> !IsJsWhitespace(r[|r| - 1])
    decreases |s|
  {
    if |s| > 0 && IsJsWhitespace(s[|s| - 1]) then
      var init := s[..|s| - 1];
      var r := TrimEnd(init);
      assert forall i :: |r| <= i < |s| - 1 ==> s[i] == init[i];
      r
    else s
  }

  /** JavaScript's `s.trim()`. */
  function Trim(s: string): string
  {
    TrimEnd(TrimStart(s))
  }

  /** `line.trim().length == 0`. */
  predicate IsBlank(line: string)
  {
    |Trim(line)| == 0
  }

  /** Trimming the start leaves nothing exactly when everything is white space. */
  lemma {:induction false} TrimStartEmpty(s: string)
    ensures |TrimStart(s)| == 0 <==> AllWhitespace(s)
    decreases |s|
  {
    if |s| > 0 && IsJsWhitespace(s[0]) {
      TrimStartEmpty(s[1..]);
      assert AllWhitespace(s) <==> AllWhitespace(s[1..]) by {
        if AllWhitespace(s[1..]) {
          assert forall i :: 1 <= i < |s| ==> s[i] == s[1..][i - 1];
        }
      }
    }
  }

  /** Trimming the end leaves nothing exactly when everything is white space. */
  lemma {:induction false} TrimEndEmpty(s: string)
    ensures |TrimEnd(s)| == 0 <==> AllWhitespace(s)
    decreases |s|
  {
    if |s| > 0 && IsJsWhitespace(s[|s| - 1]) {
      var init := s[..|s| - 1];
      TrimEndEmpty(init);
      assert AllWhitespace(s) <==> AllWhitespace(init) by {
        if AllWhitespace(init) {
          assert forall i :: 0 <= i < |s| - 1 ==> s[i] == init[i];
        }
      }
    }
  }

  /** A line is blank exactly when every character of it is white space. */
  lemma BlankIffWhitespace(line: string)
    ensures IsBlank(line) <==> AllWhitespace(line)
  {
    var t := TrimStart(line);
    TrimStartEmpty(line);
    TrimEndEmpty(t);
    assert AllWhitespace(t) <==> |t| == 0;
  }

  /** The label of one line: `line.split(" ").slice(1).join(" ").split(",")[0]`. */
  function Label(line: string): string
  {
    Split(Join(Split(line, ' ')[1..], ' '), ',')[0]
  }

  /** The label is the text after the first space of the line, cut before the
      first comma after it: it never contains a comma, later spaces are kept,
      and a line without a space yields the empty label. */
  lemma LabelSpec(line: string)
    ensures Label(line) == BeforeFirst(AfterFirst(line, ' '), ',')
    ensures ',' !in Label(line)
    ensures ' ' !in line ==> Label(line) == ""
    ensures ',' !in AfterFirst(line, ' ') ==> Label(line) == AfterFirst(line, ' ')
  {
    SplitTail(line, ' ');
    SplitHead(AfterFirst(line, ' '), ',');
  }

  /** The non-blank lines, in order. */
  function NonBlankLines(lines: seq<string>): (r: seq<string>)
    ensures |r| <= |lines|
    ensures forall x :: x in r <==> x in lines && !IsBlank(x)
  {
    if |lines| == 0 then []
    else
      var init := lines[..|lines| - 1];
      var last := lines[|lines| - 1];
      assert lines == init + [last];
      NonBlankLines(init) + (if IsBlank(last) then [] else [last])
  }

  /** Filtering distributes over concatenation: each line's contribution is
      independent of the others and stays in place. */
  lemma {:induction false} NonBlankLinesConcat(a: seq<string>, b: seq<string>)
    ensures NonBlankLines(a + b) == NonBlankLines(a) + NonBlankLines(b)
    decreases |b|
  {
    if |b| == 0 {
      assert a + b == a;
    } else {
      var init := b[..|b| - 1];
      var last := b[|b| - 1];
      var tail := if IsBlank(last) then [] else [last];
      assert (a + b)[..|a + b| - 1] == a + init;
      assert (a + b)[|a + b| - 1] == last;
      assert NonBlankLines(a + b) == NonBlankLines(a + init) + tail;
      assert NonBlankLines(b) == NonBlankLines(init) + tail;
      NonBlankLinesConcat(a, init);
      ConcatAssoc(NonBlankLines(a), NonBlankLines(init), tail);
    }
  }

  /** Associativity of `+`, proved apart from the filter's facts, where it is cheap. */
  lemma ConcatAssoc<T>(x: seq<T>, y: seq<T>, z: seq<T>)
    ensures (x + y) + z == x + (y + z)
  {
  }

  /** The label of each line, in order. */
  function LabelsOf(lines: seq<string>): seq<string>
  {
    if |lines| == 0 then [] else LabelsOf(lines[..|lines| - 1]) + [Label(lines[|lines| - 1])]
  }

  /** Exactly one label per line, in the same order, and none contains a comma. */
  lemma {:induction false} LabelsOfAt(lines: seq<string>)
    ensures |LabelsOf(lines)| == |lines|
    ensures forall k :: 0 <= k < |lines| ==> LabelsOf(lines)[k] == Label(lines[k]) && ',' !in LabelsOf(lines)[k]
  {
    if |lines| > 0 {
      LabelsOfAt(lines[..|lines| - 1]);
      LabelSpec(lines[|lines| - 1]);
    }
  }

  /** The labels the `forEach` has pushed after visiting `lines`: a blank line
      adds nothing, any other line adds its label. */
  function Pushed(lines: seq<string>): seq<string>
  {
    if |lines| == 0 then []
    else
      var prev := Pushed(lines[..|lines| - 1]);
      var last := lines[|lines| - 1];
      if IsBlank(last) then prev else prev + [Label(last)]
  }

  /** What the loop pushes is the label of each non-blank line, in order. */
  lemma {:induction false} PushedIsLabelsOfNonBlank(lines: seq<string>)
    ensures Pushed(lines) == LabelsOf(NonBlankLines(lines))
  {
    if |lines| > 0 {
      var init := lines[..|lines| - 1];
      var last := lines[|lines| - 1];
      PushedIsLabelsOfNonBlank(init);
      var before := NonBlankLines(init);
      if IsBlank(last) {
        assert NonBlankLines(lines) == before + [];
        assert before + [] == before;
      } else {
        assert NonBlankLines(lines) == before + [last];
        assert (before + [last])[..|before|] == before;
      }
    }
  }

  /** The `labelPromise` callback: split the text on newlines and push one label
      per non-blank line, in order. */
  method ParseLabels(text: string) returns (labels: seq<string>)
    ensures labels == LabelsOf(NonBlankLines(Split(text, '\n')))
  {
    var lines := Split(text, '\n');
    labels := [];
    var i := 0;
    while i < |lines|
      invariant 0 <= i <= |lines|
      invariant labels == Pushed(lines[..i])
    {
      assert lines[..i + 1][..i] == lines[..i];
      if !IsBlank(lines[i]) {
        labels := labels + [Label(lines[i])];
      }
      i := i + 1;
    }
    assert lines[..i] == lines;
    PushedIsLabelsOfNonBlank(lines);
  }
}
