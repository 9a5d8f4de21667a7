/**
 * The slug appended to a share link (`makeSlug` inside `handleShare`, Trainings.jsx): the
 * session name lower-cased, stripped of everything but letters, digits, whitespace and
 * dashes, trimmed, with every whitespace run turned into one dash and every dash run
 * collapsed to one dash. The model covers ASCII names (see README).
 */
module Slug {
  import opened Text
  import Seqs

  predicate IsDash(c: char) {
    c == '-'
  }

  /** `[a-z0-9\s-]`: the characters the slug keeps. */
  predicate IsSlugSource(c: char) {
    ('a' <= c <= 'z') || ('0' <= c <= '9') || IsSpace(c) || c == '-'
  }

  /** The characters a finished slug is made of: `[a-z0-9-]`. */
  predicate IsSlugChar(c: char) {
    ('a' <= c <= 'z') || ('0' <= c <= '9') || c == '-'
  }

  /** The input without its leading run of characters satisfying `p`. */
  function DropRun(s: string, p: char -> bool): (r: string)
    ensures |r| <= |s| && r == s[|s| - |r|..]
    ensures r == [] || !p(r[0])
  {
    if s != [] && p(s[0]) then DropRun(s[1..], p) else s
  }

  /** The characters `s.replace(/P+/g, '-')` leaves alone: outside the class and not a dash. */
  function Outside(p: char -> bool): char -> bool {
    c => !p(c) && c != '-'
  }

  /**
   * `s.replace(/P+/g, '-')` for the character class `p`: every maximal run of characters
   * satisfying `p` becomes one dash, every other character is kept. The result is no longer
   * than the input and starts like it when the input starts outside the class;
   * `CollapseRunsKeeps` states what becomes of the other characters.
   */
  function CollapseRuns(s: string, p: char -> bool): (r: string)
    ensures forall k :: 0 <= k < |r| ==> r[k] == '-' || (r[k] in s && !p(r[k]))
    ensures |r| <= |s|
    ensures s != [] && !p(s[0]) ==> r != [] && r[0] == s[0]
    decreases |s|
  {
    if s == [] then []
    else if p(s[0]) then
      var rest := DropRun(s[1..], p);
      var r := CollapseRuns(rest, p);
      assert forall c :: c in rest ==> c in s;
      ['-'] + r
    else
      var r := CollapseRuns(s[1..], p);
      [s[0]] + r
  }

  /** The characters outside the class other than dashes are kept, in order; and an input
      without dashes gives no two dashes in a row: each run becomes a single dash, and two
      runs have a kept character between them. */
  lemma {:induction false} CollapseRunsKeeps(s: string, p: char -> bool)
    ensures Seqs.Filter(CollapseRuns(s, p), Outside(p)) == Seqs.Filter(s, Outside(p))
    ensures NoDash(s) ==> NoDoubleDash(CollapseRuns(s, p))
    decreases |s|
  {
    if s != [] {
      if p(s[0]) {
        var rest := DropRun(s[1..], p);
        CollapseRunsKeeps(rest, p);
        CollapseRunStep(s, rest, CollapseRuns(rest, p), p);
      } else {
        CollapseRunsKeeps(s[1..], p);
        CollapseKeptStep(s, CollapseRuns(s[1..], p), p);
      }
    }
  }

  /** The facts about one kept character: it is kept in front of the rest. */
  lemma CollapseKeptStep(s: string, r: string, p: char -> bool)
    requires s != [] && !p(s[0])
    requires Seqs.Filter(r, Outside(p)) == Seqs.Filter(s[1..], Outside(p))
    requires NoDash(s[1..]) ==> NoDoubleDash(r)
    ensures Seqs.Filter([s[0]] + r, Outside(p)) == Seqs.Filter(s, Outside(p))
    ensures NoDash(s) ==> NoDoubleDash([s[0]] + r)
  {
    assert ([s[0]] + r)[1..] == r;
    if NoDash(s) {
      NoDashTail(s);
      NoDoubleDashCons(s[0], r);
    }
  }

  lemma NoDashTail(s: string)
    requires s != [] && NoDash(s)
    ensures s[0] != '-' && NoDash(s[1..])
  {
    forall k | 0 <= k < |s[1..]| ensures s[1..][k] != '-' {
      assert s[1..][k] == s[k + 1];
    }
  }

  /** The facts about one collapsed run: the run's characters are none of the kept ones, and
      after the dash comes a character outside the class. */
  lemma CollapseRunStep(s: string, rest: string, r: string, p: char -> bool)
    requires s != [] && p(s[0]) && rest == DropRun(s[1..], p)
    requires Seqs.Filter(r, Outside(p)) == Seqs.Filter(rest, Outside(p))
    requires |r| <= |rest| && (rest != [] ==> r != [] && r[0] == rest[0])
    requires NoDash(rest) ==> NoDoubleDash(r)
    ensures Seqs.Filter(['-'] + r, Outside(p)) == Seqs.Filter(s, Outside(p))
    ensures NoDash(s) ==> NoDoubleDash(['-'] + r)
  {
    assert Seqs.Filter(['-'] + r, Outside(p)) == Seqs.Filter(r, Outside(p)) by {
      assert (['-'] + r)[1..] == r;
    }
    assert Seqs.Filter(s, Outside(p)) == Seqs.Filter(rest, Outside(p)) by {
      FilterDropRun(s[1..], p);
    }
    if NoDash(s) {
      NoDashTail(s);
      NoDashSuffix(s[1..], |s[1..]| - |rest|);
      NoDoubleDashCons('-', r);
    }
  }

  lemma NoDashSuffix(s: string, off: nat)
    requires off <= |s| && NoDash(s)
    ensures NoDash(s[off..])
  {
    forall k | 0 <= k < |s[off..]| ensures s[off..][k] != '-' {
      assert s[off..][k] == s[off + k];
    }
  }

  /** The characters of a dropped run are not kept. */
  lemma {:induction false} FilterDropRun(s: string, p: char -> bool)
    ensures Seqs.Filter(DropRun(s, p), Outside(p)) == Seqs.Filter(s, Outside(p))
  {
    if s != [] && p(s[0]) {
      FilterDropRun(s[1..], p);
    }
  }

  /** The slug of a session name; a falsy (empty) name gives the empty slug. */
  function MakeSlug(name: string): string {
    if name == "" then ""
    else
      var kept := Seqs.Filter(ToLower(name), IsSlugSource);
      CollapseRuns(CollapseRuns(Trim(kept), IsSpace), IsDash)
  }

  /** No dash at all. */
  predicate NoDash(s: string) {
    forall k :: 0 <= k < |s| ==> s[k] != '-'
  }

  /** No two dashes in a row. */
  predicate NoDoubleDash(s: string) {
    forall k :: 0 <= k < |s| - 1 ==> !(s[k] == '-' && s[k + 1] == '-')
  }

  /** After collapsing dash runs no two dashes follow each other. */
  lemma {:induction false} CollapseDashesNoDouble(s: string)
    ensures NoDoubleDash(CollapseRuns(s, IsDash))
    decreases |s|
  {
    if s != [] {
      if IsDash(s[0]) {
        var rest := DropRun(s[1..], IsDash);
        CollapseDashesNoDouble(rest);
        NoDoubleDashCons('-', CollapseRuns(rest, IsDash));
      } else {
        CollapseDashesNoDouble(s[1..]);
        NoDoubleDashCons(s[0], CollapseRuns(s[1..], IsDash));
      }
    }
  }

  /** A character put in front of a string without double dashes adds none, unless it is a
      dash before a dash. */
  lemma NoDoubleDashCons(c: char, r: string)
    requires NoDoubleDash(r)
    requires c == '-' && r != [] ==> r[0] != '-'
    ensures NoDoubleDash([c] + r)
  {
    var t := [c] + r;
    forall k | 0 <= k < |t| - 1 ensures !(t[k] == '-' && t[k + 1] == '-') {
      if k > 0 {
        assert t[k] == r[k - 1] && t[k + 1] == r[k];
      }
    }
  }

  /** The slug is made of lower-case letters, digits and dashes only, so it holds no
      whitespace, and it never holds two dashes in a row. */
  lemma SlugShape(name: string)
    ensures forall k :: 0 <= k < |MakeSlug(name)| ==> IsSlugChar(MakeSlug(name)[k])
    ensures NoDoubleDash(MakeSlug(name))
  {
    if name != "" {
      var kept := Seqs.Filter(ToLower(name), IsSlugSource);
      var t := Trim(kept);
      var spaced := CollapseRuns(t, IsSpace);
      assert forall c :: c in spaced ==> IsSlugChar(c) by {
        assert forall c :: c in t ==> c in kept;
        forall c | c in spaced ensures IsSlugChar(c) {
          var k :| 0 <= k < |spaced| && spaced[k] == c;
        }
      }
      var slug := CollapseRuns(spaced, IsDash);
      assert forall k :: 0 <= k < |slug| ==> IsSlugChar(slug[k]) by {
        forall k | 0 <= k < |slug| ensures IsSlugChar(slug[k]) {
          assert slug[k] == '-' || slug[k] in spaced;
        }
      }
      CollapseDashesNoDouble(spaced);
    }
  }

  /** Collapsing changes nothing when no character of the class occurs, or (for a class
      holding only the dash) when no two dashes are adjacent. */
  lemma {:induction false} CollapseRunsUnchanged(s: string, p: char -> bool)
    requires forall c :: p(c) ==> c == '-'
    requires NoDoubleDash(s)
    ensures CollapseRuns(s, p) == s
    decreases |s|
  {
    if s != [] {
      var tail := s[1..];
      NoDoubleDashTail(s);
      CollapseRunsUnchanged(tail, p);
      if p(s[0]) {
        assert DropRun(tail, p) == tail by {
          if tail != [] {
            assert tail[0] == s[1];
            assert !(s[0] == '-' && s[1] == '-');
          }
        }
        CollapseRunCons(s, p);
      } else {
        CollapseKeepCons(s, p);
      }
      assert s == [s[0]] + tail;
    }
  }

  /** A run at the front becomes one dash, followed by the collapsed rest after the run. */
  lemma CollapseRunCons(s: string, p: char -> bool)
    requires s != [] && p(s[0])
    ensures CollapseRuns(s, p) == ['-'] + CollapseRuns(DropRun(s[1..], p), p)
  {
  }

  /** A character outside the class is kept in front of the collapsed rest. */
  lemma CollapseKeepCons(s: string, p: char -> bool)
    requires s != [] && !p(s[0])
    ensures CollapseRuns(s, p) == [s[0]] + CollapseRuns(s[1..], p)
  {
  }

  lemma NoDoubleDashTail(s: string)
    requires s != [] && NoDoubleDash(s)
    ensures NoDoubleDash(s[1..])
  {
    var tail := s[1..];
    forall k | 0 <= k < |tail| - 1 ensures !(tail[k] == '-' && tail[k + 1] == '-') {
      assert tail[k] == s[k + 1] && tail[k + 1] == s[k + 2];
    }
  }

  lemma {:induction false} CollapseRunsNoMatch(s: string, p: char -> bool)
    requires forall k :: 0 <= k < |s| ==> !p(s[k])
    ensures CollapseRuns(s, p) == s
  {
    if s != [] {
      CollapseRunsNoMatch(s[1..], p);
    }
  }

  /** A string of slug characters goes through lower-casing, filtering and trimming unchanged. */
  lemma SlugCharsKept(s: string)
    requires forall k :: 0 <= k < |s| ==> IsSlugChar(s[k])
    ensures Trim(Seqs.Filter(ToLower(s), IsSlugSource)) == s
  {
    LowerKept(s);
    Seqs.FilterKeepsAll(s, IsSlugSource);
    TrimKept(s);
  }

  lemma LowerKept(s: string)
    requires forall k :: 0 <= k < |s| ==> IsSlugChar(s[k])
    ensures ToLower(s) == s
  {
    var lower := ToLower(s);
    forall k | 0 <= k < |s| ensures lower[k] == s[k] {
      assert IsSlugChar(s[k]);
    }
  }

  lemma TrimKept(s: string)
    requires forall k :: 0 <= k < |s| ==> IsSlugChar(s[k])
    ensures Trim(s) == s
  {
    assert LeadingSpaces(s) == 0 by {
      if s != [] {
        assert IsSlugChar(s[0]);
      }
    }
    assert TrailingSpaces(s) == 0 by {
      if s != [] {
        assert IsSlugChar(s[|s| - 1]);
      }
    }
    assert s[0..] == s && s[..|s|] == s;
  }

  lemma SlugRunsKept(s: string)
    requires forall k :: 0 <= k < |s| ==> IsSlugChar(s[k])
    requires NoDoubleDash(s)
    ensures CollapseRuns(CollapseRuns(s, IsSpace), IsDash) == s
  {
    CollapseRunsNoMatch(s, IsSpace);
    CollapseRunsUnchanged(s, IsDash);
  }

  /** Making a slug of a slug gives it back unchanged. */
  lemma SlugIdempotent(name: string)
    ensures MakeSlug(MakeSlug(name)) == MakeSlug(name)
  {
    var s := MakeSlug(name);
    if s != "" {
      SlugShape(name);
      SlugCharsKept(s);
      SlugRunsKept(s);
    }
  }
}
