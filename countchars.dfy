/**
 * The bracket census of a source file (scripts/count_chars.js): how often each bracket and
 * the backtick occur in the text, and how many lines it has.
 */
module CountChars {
  import Seqs
  import Lines

  datatype Counts = Counts(
    openBrace: nat, closeBrace: nat,
    openParen: nat, closeParen: nat,
    openBracket: nat, closeBracket: nat,
    backtick: nat,
    lines: nat)

  /** `(s.match(/x/g) || []).length` for each of the seven characters, and
      `s.split(/\r?\n/).length`. */
  function CountChars(s: string): (c: Counts)
    ensures c.openBrace == multiset(s)['{'] && c.closeBrace == multiset(s)['}']
    ensures c.openParen == multiset(s)['('] && c.closeParen == multiset(s)[')']
    ensures c.openBracket == multiset(s)['['] && c.closeBracket == multiset(s)[']']
    ensures c.backtick == multiset(s)['`']
    ensures c.lines == multiset(s)['\n'] + 1
  {
    Lines.SplitLinesCount(s);
    Counts(Seqs.Count(s, '{'), Seqs.Count(s, '}'),
           Seqs.Count(s, '('), Seqs.Count(s, ')'),
           Seqs.Count(s, '['), Seqs.Count(s, ']'),
           Seqs.Count(s, '`'),
           |Lines.SplitLines(s)|)
  }

  /** The seven character counts added up. */
  function Tracked(c: Counts): nat {
    c.openBrace + c.closeBrace + c.openParen + c.closeParen + c.openBracket + c.closeBracket + c.backtick
  }

  /** The seven characters are different, so each character of the text is counted at most
      once: together the counts never exceed the length of the text. */
  lemma {:induction false} TrackedBound(s: string)
    ensures Tracked(CountChars(s)) <= |s|
  {
    if s != [] {
      TrackedBound(s[1..]);
      TrackedStep(s);
    }
  }

  /** The first character adds one to at most one of the seven counts. */
  lemma TrackedStep(s: string)
    requires s != []
    ensures Tracked(CountChars(s)) <= Tracked(CountChars(s[1..])) + 1
  {
    var x := s[0];
    var r := s[1..];
    assert Seqs.Count(s, '{') == (if x == '{' then 1 else 0) + Seqs.Count(r, '{');
    assert Seqs.Count(s, '}') == (if x == '}' then 1 else 0) + Seqs.Count(r, '}');
    assert Seqs.Count(s, '(') == (if x == '(' then 1 else 0) + Seqs.Count(r, '(');
    assert Seqs.Count(s, ')') == (if x == ')' then 1 else 0) + Seqs.Count(r, ')');
    assert Seqs.Count(s, '[') == (if x == '[' then 1 else 0) + Seqs.Count(r, '[');
    assert Seqs.Count(s, ']') == (if x == ']' then 1 else 0) + Seqs.Count(r, ']');
    assert Seqs.Count(s, '`') == (if x == '`' then 1 else 0) + Seqs.Count(r, '`');
  }

  /** The counts only depend on how often each character occurs, not on the order or the
      nesting: texts that are permutations of each other have the same counts. */
  lemma CountsIgnoreOrder(s: string, t: string)
    requires multiset(s) == multiset(t)
    ensures CountChars(s) == CountChars(t)
  {
  }

  /** The counts of two texts put together are the sums of their counts, except that the
      line counts overlap in the line where they meet. */
  lemma CountsAppend(s: string, t: string)
    ensures var a, b, ab := CountChars(s), CountChars(t), CountChars(s + t);
            ab.openBrace == a.openBrace + b.openBrace && ab.closeBrace == a.closeBrace + b.closeBrace &&
            ab.backtick == a.backtick + b.backtick && ab.lines == a.lines + b.lines - 1
  {
    assert multiset(s + t) == multiset(s) + multiset(t);
  }
}
