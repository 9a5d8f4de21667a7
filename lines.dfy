/**
 * `text.split(/\r?\n/)`, as the three source-checking scripts cut a file into lines: the
 * text is cut at every line feed, and a carriage return just before a line feed goes with
 * it.
 */
module Lines {
  import Seqs

  /** The length of the first line: the characters before the first line feed. */
  function LineEnd(s: string): (n: nat)
    ensures n <= |s|
    ensures forall k :: 0 <= k < n ==> s[k] != '\n'
    ensures n < |s| ==> s[n] == '\n'
  {
    if s == [] || s[0] == '\n' then 0 else 1 + LineEnd(s[1..])
  }

  /** A line cut off before a line feed, without the carriage return that ended it. */
  function DropReturn(piece: string): (r: string)
    ensures piece != [] && piece[|piece| - 1] == '\r' ==> r == piece[..|piece| - 1]
    ensures piece == [] || piece[|piece| - 1] != '\r' ==> r == piece
  {
    if piece != [] && piece[|piece| - 1] == '\r' then piece[..|piece| - 1] else piece
  }

  /** `s.split(/\r?\n/)`: the lines, none of which holds a line feed. */
  function SplitLines(s: string): (r: seq<string>)
    ensures r != []
    ensures forall k :: 0 <= k < |r| ==> '\n' !in r[k]
    decreases |s|
  {
    var n := LineEnd(s);
    if n == |s| then [s]
    else
      var first := DropReturn(s[..n]);
      var rest := SplitLines(s[n + 1..]);
      assert '\n' !in first by {
        assert '\n' !in s[..n];
      }
      assert forall k :: 1 <= k < |rest| + 1 ==> ([first] + rest)[k] == rest[k - 1];
      [first] + rest
  }

  /** The occurrences of `c` in a text: those in the first line, the line feed that ends it,
      and those in the rest. */
  lemma FirstLineCount(s: string, c: char)
    ensures LineEnd(s) == |s| ==> Seqs.Count(s, '\n') == 0
    ensures LineEnd(s) < |s| ==>
              Seqs.Count(s, c) == Seqs.Count(s[..LineEnd(s)], c) + (if c == '\n' then 1 else 0)
                                  + Seqs.Count(s[LineEnd(s) + 1..], c)
    ensures Seqs.Count(s[..LineEnd(s)], '\n') == 0
  {
    var n := LineEnd(s);
    assert '\n' !in s[..n];
    assert multiset(s[..n])['\n'] == 0;
    if n == |s| {
      assert s[..n] == s;
    } else {
      assert s == s[..n] + ([s[n]] + s[n + 1..]);
      Seqs.CountAppend(s[..n], [s[n]] + s[n + 1..], c);
      Seqs.CountAppend([s[n]], s[n + 1..], c);
    }
  }

  /** There is one line more than there are line feeds. */
  lemma {:induction false} SplitLinesCount(s: string)
    ensures |SplitLines(s)| == Seqs.Count(s, '\n') + 1
    decreases |s|
  {
    var n := LineEnd(s);
    FirstLineCount(s, '\n');
    if n < |s| {
      SplitLinesCount(s[n + 1..]);
    }
  }

  /** The lines joined again with a line feed between every two. */
  function JoinLines(ls: seq<string>): string {
    if ls == [] then "" else if |ls| == 1 then ls[0] else ls[0] + "\n" + JoinLines(ls[1..])
  }

  /** One step of the split: the first line, then the lines of the rest. */
  lemma SplitStep(s: string)
    requires LineEnd(s) < |s|
    ensures SplitLines(s) == [DropReturn(s[..LineEnd(s)])] + SplitLines(s[LineEnd(s) + 1..])
  {
  }

  lemma JoinCons(x: string, ls: seq<string>)
    requires ls != []
    ensures JoinLines([x] + ls) == x + "\n" + JoinLines(ls)
  {
    assert ([x] + ls)[1..] == ls;
  }

  /** Without carriage returns the first line keeps its text and the rest has none either. */
  lemma NoReturnPieces(s: string, n: nat)
    requires '\r' !in s && n < |s| && s[n] == '\n'
    ensures '\r' !in s[n + 1..]
    ensures DropReturn(s[..n]) == s[..n]
    ensures s == s[..n] + "\n" + s[n + 1..]
  {
    var rest := s[n + 1..];
    assert forall k :: 0 <= k < |rest| ==> rest[k] == s[n + 1 + k];
    assert n > 0 ==> s[..n][n - 1] == s[n - 1] && s[n - 1] in s;
    assert s == s[..n] + [s[n]] + rest;
  }

  /** Without carriage returns, cutting into lines and joining them again gives the text
      back. */
  lemma {:induction false} JoinSplit(s: string)
    requires '\r' !in s
    ensures JoinLines(SplitLines(s)) == s
    decreases |s|
  {
    var n := LineEnd(s);
    if n < |s| {
      var first := s[..n];
      var rest := s[n + 1..];
      NoReturnPieces(s, n);
      JoinSplit(rest);
      SplitStep(s);
      JoinCons(first, SplitLines(rest));
    }
  }

  /** Dropping a carriage return keeps every other character's count. */
  lemma DropReturnCount(piece: string, c: char)
    requires c != '\r'
    ensures Seqs.Count(DropReturn(piece), c) == Seqs.Count(piece, c)
  {
    if DropReturn(piece) != piece {
      assert piece == DropReturn(piece) + ['\r'];
      Seqs.CountAppend(DropReturn(piece), ['\r'], c);
    }
  }

  lemma ConcatCons(x: string, rest: seq<string>)
    ensures Seqs.Concat([x] + rest) == x + Seqs.Concat(rest)
  {
    Seqs.ConcatAppend([x], rest);
    assert Seqs.Concat([x]) == Seqs.Concat([]) + x;
  }

  /** A character other than a line feed or a carriage return occurs in the text as often
      as in the line before a line feed and the rest together. */
  lemma CountStep(s: string, n: nat, c: char)
    requires c != '\n' && c != '\r' && n < |s| && s[n] == '\n'
    ensures Seqs.Count(s, c) == Seqs.Count(DropReturn(s[..n]), c) + Seqs.Count(s[n + 1..], c)
  {
    assert s == s[..n] + ([s[n]] + s[n + 1..]);
    Seqs.CountAppend(s[..n], [s[n]] + s[n + 1..], c);
    Seqs.CountAppend([s[n]], s[n + 1..], c);
    DropReturnCount(s[..n], c);
  }

  /** A text without line feed is one line. */
  lemma SplitOne(s: string)
    requires LineEnd(s) == |s|
    ensures Seqs.Concat(SplitLines(s)) == s
  {
    ConcatCons(s, []);
    assert SplitLines(s) == [s] + [];
  }

  /** Every other character than a line feed or a carriage return stays in the lines: the
      lines together hold it as often as the text. */
  lemma {:induction false} SplitKeepsCount(s: string, c: char)
    requires c != '\n' && c != '\r'
    ensures Seqs.Count(Seqs.Concat(SplitLines(s)), c) == Seqs.Count(s, c)
    decreases |s|
  {
    var n := LineEnd(s);
    if n == |s| {
      SplitOne(s);
    } else {
      var first := DropReturn(s[..n]);
      var rest := SplitLines(s[n + 1..]);
      assert Seqs.Concat(SplitLines(s)) == first + Seqs.Concat(rest) by {
        SplitStep(s);
        ConcatCons(first, rest);
      }
      assert Seqs.Count(first + Seqs.Concat(rest), c) == Seqs.Count(first, c) + Seqs.Count(s[n + 1..], c) by {
        SplitKeepsCount(s[n + 1..], c);
        Seqs.CountAppend(first, Seqs.Concat(rest), c);
      }
      CountStep(s, n, c);
    }
  }
}
