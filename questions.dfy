/**
 * The numbered-list scanner run on the question-generation reply: the reply is
 * split on "\n", every stripped line is matched against `(\d+)\.\s*(.*)`
 * (anchored at the start, as `re.match` is), and each matching line is
 * rewritten "<digits>. <rest>"; other lines are dropped.
 */
module QuestionList {
  import opened Optional
  import opened Text

  /** Length of the run of digits that starts `s` (what the greedy `\d+` takes). */
  function DigitRun(s: string): nat
    decreases |s|
  {
    if s != [] && IsDigit(s[0]) then DigitRun(s[1..]) + 1 else 0
  }

  /** The run is the longest all-digit prefix: digits up to it, a non-digit (or the end) at it. */
  lemma {:induction false} DigitRunSpec(s: string)
    ensures DigitRun(s) <= |s| && AllDigits(s[..DigitRun(s)])
    ensures DigitRun(s) == |s| || !IsDigit(s[DigitRun(s)])
    decreases |s|
  {
    if s != [] && IsDigit(s[0]) {
      DigitRunSpec(s[1..]);
      var m := DigitRun(s[1..]);
      assert s[..m + 1] == [s[0]] + s[1..][..m];
    }
  }

  /** `re.match(r"(\d+)\.\s*(.*)", line)` followed by `f"{number}. {text}"`. */
  function MatchNumbered(line: string): Option<string>
  {
    var d := DigitRun(line);
    if 0 < d < |line| && line[d] == '.' then
      Some(line[..d] + ". " + StripLeft(line[d + 1..]))
    else
      None
  }

  /** Every line of the form digits, dot, whitespace, text is accepted and rewritten
      with exactly one space after the dot. */
  lemma MatchNumberedAccepts(digits: string, spaces: string, text: string)
    requires |digits| > 0 && AllDigits(digits)
    requires AllSpace(spaces)
    requires text == [] || !IsSpace(text[0])
    ensures MatchNumbered(digits + "." + spaces + text) == Some(digits + ". " + text)
  {
    var line := digits + "." + spaces + text;
    var d := DigitRun(line);
    DigitRunSpec(line);
    assert line[..|digits|] == digits;
    assert line[|digits|] == '.';
    assert d == |digits|;
    assert line[..d] == digits;
    assert line[d + 1..] == spaces + text;
    StripLeftSpaces(spaces, text);
  }

  /** Conversely, whatever is accepted has that form: the line splits into digits, a dot,
      whitespace and a text not starting with whitespace, and the result is "<digits>. <text>". */
  lemma MatchNumberedShape(line: string) returns (digits: string, spaces: string, text: string)
    requires MatchNumbered(line).Some?
    ensures line == digits + "." + spaces + text
    ensures |digits| > 0 && AllDigits(digits) && AllSpace(spaces)
    ensures text == [] || !IsSpace(text[0])
    ensures MatchNumbered(line) == Some(digits + ". " + text)
  {
    var d := DigitRun(line);
    assert 0 < d < |line| && line[d] == '.';
    digits := line[..d];
    assert AllDigits(digits) by {
      DigitRunSpec(line);
    }
    var rest := line[d + 1..];
    spaces, text := SpacesThenText(rest);
    assert MatchNumbered(line) == Some(digits + ". " + text);
    assert line == digits + "." + spaces + text by {
      assert [line[d]] == ".";
      assert line == digits + "." + rest;
      assert digits + "." + rest == digits + "." + spaces + text;
    }
  }

  /** Any text is its leading whitespace followed by what lstrip keeps. */
  lemma SpacesThenText(rest: string) returns (spaces: string, text: string)
    ensures rest == spaces + text && AllSpace(spaces)
    ensures text == StripLeft(rest) && (text == [] || !IsSpace(text[0]))
  {
    StripLeftSpec(rest);
    text := StripLeft(rest);
    spaces := rest[..|rest| - |text|];
    assert rest == spaces + rest[|rest| - |text|..];
  }

  /** What one line of the reply contributes: its rewrite if it matches once stripped. */
  function LineQuestion(line: string): seq<string>
  {
    match MatchNumbered(Strip(line))
    case Some(q) => [q]
    case None => []
  }

  /** The kept questions of a list of lines, in line order. */
  function Numbered(lines: seq<string>): seq<string>
  {
    if lines == [] then []
    else Numbered(lines[..|lines| - 1]) + LineQuestion(lines[|lines| - 1])
  }

  /** The questions parsed from a whole reply. */
  function NumberedQuestions(reply: string): seq<string>
  {
    Numbered(Split(reply, '\n'))
  }

  /** Lines are judged one by one and keep their order: the questions of two blocks of
      lines are the questions of the first followed by those of the second. */
  lemma {:induction false} NumberedConcat(a: seq<string>, b: seq<string>)
    ensures Numbered(a + b) == Numbered(a) + Numbered(b)
    decreases |b|
  {
    if b == [] {
      assert a + b == a;
    } else {
      var b' := b[..|b| - 1];
      assert (a + b)[..|a + b| - 1] == a + b';
      assert (a + b)[|a + b| - 1] == b[|b| - 1];
      NumberedConcat(a, b');
    }
  }


  /** There are never more questions than lines, and every question is the rewrite of a line. */
  lemma {:induction false} NumberedFromLines(lines: seq<string>)
    ensures |Numbered(lines)| <= |lines|
    ensures forall q :: q in Numbered(lines) ==>
      exists k :: 0 <= k < |lines| && MatchNumbered(Strip(lines[k])) == Some(q)
    decreases |lines|
  {
    if lines != [] {
      var init := lines[..|lines| - 1];
      NumberedFromLines(init);
      forall q | q in Numbered(lines)
        ensures exists k :: 0 <= k < |lines| && MatchNumbered(Strip(lines[k])) == Some(q)
      {
        if q in Numbered(init) {
          var k :| 0 <= k < |init| && MatchNumbered(Strip(init[k])) == Some(q);
          assert lines[k] == init[k];
        } else {
          assert q in LineQuestion(lines[|lines| - 1]);
        }
      }
    }
  }

  /** One more line adds exactly what that line contributes. */
  lemma NumberedSnoc(lines: seq<string>, i: nat)
    requires i < |lines|
    ensures Numbered(lines[..i + 1]) == Numbered(lines[..i]) + LineQuestion(lines[i])
  {
    assert lines[..i + 1][..i] == lines[..i];
  }

  /** The scanning loop of the question handler, over the lines of the reply. */
  method KeepNumbered(lines: seq<string>) returns (questions: seq<string>)
    ensures questions == Numbered(lines)
  {
    questions := [];
    var i := 0;
    while i < |lines|
      invariant 0 <= i <= |lines|
      invariant questions == Numbered(lines[..i])
    {
      NumberedSnoc(lines, i);
      var m := MatchNumbered(Strip(lines[i]));
      if m.Some? {
        questions := questions + [m.value];
      }
      i := i + 1;
    }
    assert lines[..|lines|] == lines;
  }

  /** `for line in reply.split("\n")` followed by the scan. */
  method ParseQuestions(reply: string) returns (questions: seq<string>)
    ensures questions == NumberedQuestions(reply)
  {
    questions := KeepNumbered(Split(reply, '\n'));
  }
}
