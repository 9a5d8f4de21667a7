/**
 * The brace-matching scan of a source file (scripts/find_unmatched.js): every `{` pushes its
 * 1-based line and column on a stack, every `}` pops the most recent one or, on an empty
 * stack, is reported as an extra closing brace; at the end the last five unmatched openings
 * are reported, or that all braces matched.
 */
module FindUnmatched {
  import Seqs
  import Lines
  import BraceDepth

  /** A 1-based line and column. */
  datatype Pos = Pos(line: int, col: int)

  /** The stack of open braces and the extra closing braces reported so far, in order. */
  datatype State = State(stack: seq<Pos>, extras: seq<Pos>)

  /** What the script prints at the end. */
  datatype Report = AllMatched | UnmatchedOpen(last: seq<Pos>)

  /** One character at position `p`. */
  function Step(st: State, c: char, p: Pos): State {
    if c == '{' then State(st.stack + [p], st.extras)
    else if c == '}' then
      if st.stack == [] then State([], st.extras + [p])
      else State(st.stack[..|st.stack| - 1], st.extras)
    else st
  }

  /** The first `j` characters of the line numbered `row`. */
  function RunLine(st: State, line: string, row: int, j: nat): State
    requires j <= |line|
  {
    if j == 0 then st else Step(RunLine(st, line, row, j - 1), line[j - 1], Pos(row, j))
  }

  /** The first `i` lines, from an empty stack. */
  function RunLines(lines: seq<string>, i: nat): State
    requires i <= |lines|
  {
    if i == 0 then State([], []) else RunLine(RunLines(lines, i - 1), lines[i - 1], i, |lines[i - 1]|)
  }

  /** The scan of the whole text, cut into lines as `split(/\r?\n/)` does. */
  function Unmatched(s: string): State {
    var lines := Lines.SplitLines(s);
    RunLines(lines, |lines|)
  }

  /** `stack.slice(-5)`: the last (at most) five entries. */
  function LastFive(stack: seq<Pos>): (r: seq<Pos>)
    ensures |r| == if |stack| < 5 then |stack| else 5
    ensures r == stack[|stack| - |r|..]
  {
    if |stack| < 5 then stack else stack[|stack| - 5..]
  }

  /** The final message: all matched exactly when nothing is left on the stack, whatever
      extra closing braces were reported; otherwise between one and five positions, the last
      ones on the stack. */
  function ReportOf(st: State): (r: Report)
    ensures r == AllMatched <==> st.stack == []
    ensures r.UnmatchedOpen? ==> 1 <= |r.last| <= 5 && |r.last| <= |st.stack| && r.last == st.stack[|st.stack| - |r.last|..]
  {
    if |st.stack| > 0 then UnmatchedOpen(LastFive(st.stack)) else AllMatched
  }

  /** Every character moves the difference between stack size and extras by its brace
      step. */
  lemma {:induction false} RunLineBalance(st: State, line: string, row: int, j: nat)
    requires j <= |line|
    ensures var r := RunLine(st, line, row, j);
            |r.stack| - |r.extras| == |st.stack| - |st.extras| + BraceDepth.Depth(line[..j])
  {
    if j > 0 {
      RunLineBalance(st, line, row, j - 1);
      assert line[..j][..j - 1] == line[..j - 1];
    }
  }

  /** The depth of two texts put together is the sum of their depths. */
  lemma DepthAppend(a: string, b: string)
    ensures BraceDepth.Depth(a + b) == BraceDepth.Depth(a) + BraceDepth.Depth(b)
  {
    BraceDepth.DepthCounts(a + b);
    BraceDepth.DepthCounts(a);
    BraceDepth.DepthCounts(b);
    Seqs.CountAppend(a, b, '{');
    Seqs.CountAppend(a, b, '}');
  }

  /** After `i` lines, the stack exceeds the extras by the depth of the text read. */
  lemma {:induction false} RunLinesBalance(lines: seq<string>, i: nat)
    requires i <= |lines|
    ensures var r := RunLines(lines, i);
            |r.stack| - |r.extras| == BraceDepth.Depth(Seqs.Concat(lines[..i]))
  {
    if i > 0 {
      RunLinesBalance(lines, i - 1);
      var line := lines[i - 1];
      RunLineBalance(RunLines(lines, i - 1), line, i, |line|);
      assert line[..|line|] == line;
      BraceDepth.ConcatPrefix(lines, i - 1);
      DepthAppend(Seqs.Concat(lines[..i - 1]), line);
    }
  }

  /** The unmatched openings number the opening braces less the closing braces that found a
      partner, that is, less the closing braces that were not reported as extra. */
  lemma StackSize(s: string)
    ensures var r := Unmatched(s);
            |r.stack| == Seqs.Count(s, '{') - (Seqs.Count(s, '}') - |r.extras|)
  {
    var lines := Lines.SplitLines(s);
    RunLinesBalance(lines, |lines|);
    assert lines[..|lines|] == lines;
    BraceDepth.DepthCounts(Seqs.Concat(lines));
    Lines.SplitKeepsCount(s, '{');
    Lines.SplitKeepsCount(s, '}');
  }

  /** `p` comes before `q` in the text. */
  predicate Before(p: Pos, q: Pos) {
    p.line < q.line || (p.line == q.line && p.col < q.col)
  }

  /** `p` is a position of the lines holding the character `c`. */
  predicate IsAt(lines: seq<string>, p: Pos, c: char) {
    1 <= p.line <= |lines| && 1 <= p.col <= |lines[p.line - 1]| && lines[p.line - 1][p.col - 1] == c
  }

  /** The positions hold `c`, in text order, all before `bound`. */
  predicate Located(lines: seq<string>, ps: seq<Pos>, c: char, bound: Pos) {
    (forall k :: 0 <= k < |ps| ==> IsAt(lines, ps[k], c) && Before(ps[k], bound)) &&
    (forall k, l :: 0 <= k < l < |ps| ==> Before(ps[k], ps[l]))
  }

  predicate Inv(lines: seq<string>, st: State, bound: Pos) {
    Located(lines, st.stack, '{', bound) && Located(lines, st.extras, '}', bound)
  }

  /** Reading the characters of a line keeps the stack at opening braces and the extras at
      closing ones, both in text order. */
  lemma {:induction false} RunLineOrdered(lines: seq<string>, st: State, row: int, j: nat)
    requires 1 <= row <= |lines| && j <= |lines[row - 1]|
    requires Inv(lines, st, Pos(row, 1))
    ensures Inv(lines, RunLine(st, lines[row - 1], row, j), Pos(row, j + 1))
  {
    if j > 0 {
      RunLineOrdered(lines, st, row, j - 1);
      var prev := RunLine(st, lines[row - 1], row, j - 1);
      var p := Pos(row, j);
      assert IsAt(lines, p, lines[row - 1][j - 1]);
      var next := Step(prev, lines[row - 1][j - 1], p);
      assert next == RunLine(st, lines[row - 1], row, j);
    }
  }

  /** After `i` lines, the same holds with every position in those lines. */
  lemma {:induction false} RunLinesOrdered(lines: seq<string>, i: nat)
    requires i <= |lines|
    ensures Inv(lines, RunLines(lines, i), Pos(i + 1, 1))
  {
    if i > 0 {
      RunLinesOrdered(lines, i - 1);
      RunLineOrdered(lines, RunLines(lines, i - 1), i, |lines[i - 1]|);
    }
  }

  /** The unmatched openings are opening braces listed in text order, the extras closing
      braces in text order. */
  lemma UnmatchedInOrder(s: string)
    ensures var lines, r := Lines.SplitLines(s), Unmatched(s);
            (forall k :: 0 <= k < |r.stack| ==> IsAt(lines, r.stack[k], '{')) &&
            (forall k :: 0 <= k < |r.extras| ==> IsAt(lines, r.extras[k], '}')) &&
            (forall k, l :: 0 <= k < l < |r.stack| ==> Before(r.stack[k], r.stack[l])) &&
            (forall k, l :: 0 <= k < l < |r.extras| ==> Before(r.extras[k], r.extras[l]))
  {
    var lines := Lines.SplitLines(s);
    RunLinesOrdered(lines, |lines|);
  }

  /** A lone closing brace is reported as extra, and then all braces count as matched. */
  lemma MatchedDespiteExtra()
    ensures Unmatched("}") == State([], [Pos(1, 1)])
    ensures ReportOf(Unmatched("}")) == AllMatched
  {
    assert Lines.SplitLines("}") == ["}"];
  }

  /** The inner loop: the characters of one line, numbered from 1. */
  method ScanLine(stack0: seq<Pos>, extras0: seq<Pos>, line: string, row: int) returns (stack: seq<Pos>, extras: seq<Pos>)
    ensures State(stack, extras) == RunLine(State(stack0, extras0), line, row, |line|)
  {
    stack, extras := stack0, extras0;
    var j := 0;
    while j < |line|
      invariant 0 <= j <= |line|
      invariant State(stack, extras) == RunLine(State(stack0, extras0), line, row, j)
    {
      var ch := line[j];
      if ch == '{' {
        stack := stack + [Pos(row, j + 1)];
      } else if ch == '}' {
        if |stack| == 0 {
          extras := extras + [Pos(row, j + 1)];
        } else {
          stack := stack[..|stack| - 1];
        }
      }
      j := j + 1;
    }
  }

  /** The script: every line scanned in turn, then the final message. */
  method Scan(s: string) returns (stack: seq<Pos>, extras: seq<Pos>, report: Report)
    ensures State(stack, extras) == Unmatched(s)
    ensures report == AllMatched <==> stack == []
    ensures report.UnmatchedOpen? ==> report.last == LastFive(stack)
  {
    var lines := Lines.SplitLines(s);
    stack, extras := [], [];
    var i := 0;
    while i < |lines|
      invariant 0 <= i <= |lines|
      invariant State(stack, extras) == RunLines(lines, i)
    {
      stack, extras := ScanLine(stack, extras, lines[i], i + 1);
      i := i + 1;
    }
    if |stack| > 0 {
      report := UnmatchedOpen(LastFive(stack));
    } else {
      report := AllMatched;
    }
  }
}
