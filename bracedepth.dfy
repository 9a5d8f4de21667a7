/**
 * The brace-depth trace of a source file (scripts/brace_depth.js): the running depth of
 * `{`/`}` nesting, its maximum, and a listing of the first and last lines with the depth
 * reached at the end of each.
 */
module BraceDepth {
  import opened Text
  import Seqs
  import Lines

  /** What a character does to the depth. */
  function Delta(c: char): int {
    if c == '{' then 1 else if c == '}' then -1 else 0
  }

  /** The depth after reading `t`, starting from 0; it is not clamped at 0. */
  function Depth(t: string): int {
    if t == [] then 0 else Depth(t[..|t| - 1]) + Delta(t[|t| - 1])
  }

  /** The depth is the number of opening braces minus the number of closing ones. */
  lemma {:induction false} DepthCounts(t: string)
    ensures Depth(t) == Seqs.Count(t, '{') - Seqs.Count(t, '}')
  {
    if t != [] {
      var init := t[..|t| - 1];
      DepthCounts(init);
      assert t == init + [t[|t| - 1]];
      Seqs.CountAppend(init, [t[|t| - 1]], '{');
      Seqs.CountAppend(init, [t[|t| - 1]], '}');
    }
  }

  /** A closing brace first takes the depth below 0, while the maximum stays 0. */
  lemma DepthGoesNegative()
    ensures Depth("}") == -1 && MaxDepth("}") == 0
  {
    assert "}"[..0] == [];
  }

  function Max(a: int, b: int): int {
    if a >= b then a else b
  }

  /** `maxDepth`: the largest of 0 and the depths after every character. */
  function MaxDepth(t: string): (m: int)
    ensures m >= 0
    ensures forall i :: 0 <= i <= |t| ==> Depth(t[..i]) <= m
    ensures m == 0 || exists i :: 0 < i <= |t| && Depth(t[..i]) == m
  {
    if t == [] then 0
    else
      var init := t[..|t| - 1];
      var m := MaxDepth(init);
      assert forall i :: 0 <= i <= |init| ==> t[..i] == init[..i];
      assert t[..|t|] == t;
      Max(m, Depth(t))
  }

  /** Reading one more character adds its step to the depth, and the maximum takes the new
      depth into account. */
  lemma DepthSnoc(t: string, c: char)
    ensures Depth(t + [c]) == Depth(t) + Delta(c)
    ensures MaxDepth(t + [c]) == Max(MaxDepth(t), Depth(t) + Delta(c))
  {
    assert (t + [c])[..|t|] == t;
  }

  lemma PrefixSnoc(before: string, line: string, j: nat)
    requires j < |line|
    ensures before + line[..j + 1] == (before + line[..j]) + [line[j]]
  {
    assert line[..j + 1] == line[..j] + [line[j]];
  }

  lemma ConcatPrefix(lines: seq<string>, i: nat)
    requires i < |lines|
    ensures Seqs.Concat(lines[..i + 1]) == Seqs.Concat(lines[..i]) + lines[i]
  {
    assert lines[..i + 1][..i] == lines[..i];
  }

  /** One listed line: its number, the depth after it, and its trimmed text cut to 120
      characters. */
  datatype Row = Row(number: int, depth: int, text: string)

  /** `s.slice(0, 120)` */
  function Cut(s: string): (r: string)
    ensures |r| <= 120 && |r| <= |s| && r == s[..|r|]
    ensures |s| <= 120 ==> r == s
  {
    if |s| <= 120 then s else s[..120]
  }

  /** `i < 40 || i > lines.length - 40`: the first 40 lines and the last 39 are listed. */
  predicate Shown(i: int, n: int) {
    i < 40 || i > n - 40
  }

  /** The rows listed for the first `i` lines. */
  function Rows(lines: seq<string>, i: nat): seq<Row>
    requires i <= |lines|
  {
    if i == 0 then []
    else
      Rows(lines, i - 1) +
      (if Shown(i - 1, |lines|) then [Row(i, Depth(Seqs.Concat(lines[..i])), Cut(Trim(lines[i - 1])))] else [])
  }

  /** How many of the first `i` lines are listed: all of the first 40, and after them those
      among the last 39. */
  lemma {:induction false} RowsLength(lines: seq<string>, i: nat)
    requires i <= |lines|
    ensures |Rows(lines, i)| == ListedCount(i, |lines|)
  {
    if i > 0 {
      RowsLength(lines, i - 1);
      ListedCountStep(i, |lines|);
      assert |Rows(lines, i)| == |Rows(lines, i - 1)| + (if Shown(i - 1, |lines|) then 1 else 0);
    }
  }

  /** The number of rows listed for the first `i` of `n` lines. */
  function ListedCount(i: int, n: int): int {
    if i <= 40 then i else 40 + Max(0, i - Max(40, n - 39))
  }

  /** One more line adds one row exactly when that line is listed. */
  lemma ListedCountStep(i: int, n: int)
    requires 1 <= i <= n
    ensures ListedCount(i, n) == ListedCount(i - 1, n) + (if Shown(i - 1, n) then 1 else 0)
  {
  }

  /** A file of at most 79 lines is listed in full; a longer one has 79 rows, so the middle
      lines, from the 41st to the 40th from the end, are left out. */
  lemma RowsListed(lines: seq<string>)
    ensures |Rows(lines, |lines|)| == if |lines| <= 79 then |lines| else 79
  {
    RowsLength(lines, |lines|);
  }

  /** Every row gives the number of a listed line and the depth after it. */
  lemma {:induction false} RowsNumbered(lines: seq<string>, i: nat)
    requires i <= |lines|
    ensures forall k :: 0 <= k < |Rows(lines, i)| ==>
              var r := Rows(lines, i)[k];
              1 <= r.number <= i && Shown(r.number - 1, |lines|) &&
              r.depth == Depth(Seqs.Concat(lines[..r.number]))
  {
    if i > 0 {
      RowsNumbered(lines, i - 1);
      var prev := Rows(lines, i - 1);
      assert forall k :: 0 <= k < |prev| ==> Rows(lines, i)[k] == prev[k];
    }
  }

  /** The rows are in line order, each line at most once. */
  lemma {:induction false} RowsOrdered(lines: seq<string>, i: nat)
    requires i <= |lines|
    ensures forall k, l :: 0 <= k < l < |Rows(lines, i)| ==> Rows(lines, i)[k].number < Rows(lines, i)[l].number
  {
    if i > 0 {
      RowsOrdered(lines, i - 1);
      RowsNumbered(lines, i - 1);
      var prev := Rows(lines, i - 1);
      assert forall k :: 0 <= k < |prev| ==> Rows(lines, i)[k] == prev[k];
    }
  }

  /** The inner loop of the script: the characters of one line read in turn, the depth and
      its maximum carried on from the text `before` it. */
  method ScanLine(depth0: int, max0: int, ghost before: string, line: string) returns (depth: int, maxDepth: int)
    requires depth0 == Depth(before) && max0 == MaxDepth(before)
    ensures depth == Depth(before + line) && maxDepth == MaxDepth(before + line)
  {
    depth, maxDepth := depth0, max0;
    var j := 0;
    assert before + line[..0] == before;
    while j < |line|
      invariant 0 <= j <= |line|
      invariant depth == Depth(before + line[..j])
      invariant maxDepth == MaxDepth(before + line[..j])
    {
      PrefixSnoc(before, line, j);
      DepthSnoc(before + line[..j], line[j]);
      var ch := line[j];
      if ch == '{' {
        depth := depth + 1;
      } else if ch == '}' {
        depth := depth - 1;
      }
      if depth > maxDepth {
        maxDepth := depth;
      }
      j := j + 1;
    }
    assert line[..j] == line;
  }

  /**
   * The script: the file cut into lines, every character of every line read in turn with
   * the depth and its maximum updated after each, and a row for every listed line. The
   * final depth is the brace balance of the whole text.
   */
  method Scan(s: string) returns (maxDepth: int, depth: int, rows: seq<Row>)
    ensures depth == Seqs.Count(s, '{') - Seqs.Count(s, '}')
    ensures maxDepth == MaxDepth(Seqs.Concat(Lines.SplitLines(s)))
    ensures rows == Rows(Lines.SplitLines(s), |Lines.SplitLines(s)|)
  {
    var lines := Lines.SplitLines(s);
    depth := 0;
    maxDepth := 0;
    rows := [];
    var i := 0;
    while i < |lines|
      invariant 0 <= i <= |lines|
      invariant depth == Depth(Seqs.Concat(lines[..i]))
      invariant maxDepth == MaxDepth(Seqs.Concat(lines[..i]))
      invariant rows == Rows(lines, i)
    {
      var line := lines[i];
      ghost var before := Seqs.Concat(lines[..i]);
      depth, maxDepth := ScanLine(depth, maxDepth, before, line);
      ConcatPrefix(lines, i);
      if i < 40 || i > |lines| - 40 {
        rows := rows + [Row(i + 1, depth, Cut(Trim(line)))];
      }
      i := i + 1;
    }
    assert lines[..i] == lines;
    DepthCounts(Seqs.Concat(lines));
    Lines.SplitKeepsCount(s, '{');
    Lines.SplitKeepsCount(s, '}');
  }
}
