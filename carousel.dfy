/**
 * The picture carousels: the modal's `idx` (DrillModal.jsx), the thumbnails of the training
 * page (`prevThumb`/`nextThumb`, TrainingSession.jsx) and of the shared page
 * (`prevImg`/`nextImg`, SharedTraining.jsx). All of them step an index modulo the number of
 * pictures. JavaScript's `%` truncates, but every operand here is non-negative, where it
 * agrees with Dafny's `%`.
 */
module Carousel {

  /** `(i + 1) % len`: the next picture, wrapping from the last to the first. */
  function Next(i: int, len: int): (r: int)
    requires 0 <= i < len
    ensures 0 <= r < len
    ensures r == if i == len - 1 then 0 else i + 1
  {
    (i + 1) % len
  }

  /** `(i - 1 + len) % len`: the previous picture, wrapping from the first to the last. */
  function Prev(i: int, len: int): (r: int)
    requires 0 <= i < len
    ensures 0 <= r < len
    ensures r == if i == 0 then len - 1 else i - 1
  {
    (i - 1 + len) % len
  }

  /** Going forward and then back (or back and then forward) returns to the same picture. */
  lemma PrevUndoesNext(i: int, len: int)
    requires 0 <= i < len
    ensures Prev(Next(i, len), len) == i
    ensures Next(Prev(i, len), len) == i
  {
  }

  /** The index after pressing "next" `k` times, starting at `i`. */
  function NextTimes(i: int, len: int, k: nat): (r: int)
    requires 0 <= i < len
    ensures 0 <= r < len
  {
    if k == 0 then i else Next(NextTimes(i, len, k - 1), len)
  }

  /** Pressing "next" `k` times moves `k` places round the circle: every picture is reached,
      and after `len` presses the carousel is back where it started. */
  lemma {:induction false} NextTimesIsModular(i: int, len: int, k: nat)
    requires 0 <= i < len
    ensures NextTimes(i, len, k) == (i + k) % len
  {
    if k > 0 {
      NextTimesIsModular(i, len, k - 1);
      var j := (i + k - 1) % len;
      assert (i + k) % len == (j + 1) % len by {
        ModStep(i + k - 1, len);
      }
    }
  }

  lemma MulBound(len: int, d: int)
    requires 0 < len && -len < len * d < len
    ensures d == 0
  {
  }

  /** Euclidean remainder is determined by any decomposition `a == q * len + r`. */
  lemma ModUnique(a: int, len: int, q: int, r: int)
    requires 0 < len && a == q * len + r && 0 <= r < len
    ensures a % len == r
  {
    var q', r' := a / len, a % len;
    assert a == q' * len + r';
    assert len * (q - q') == r' - r;
    MulBound(len, q - q');
  }

  lemma ModStep(a: int, len: int)
    requires 0 <= a && 0 < len
    ensures (a + 1) % len == (a % len + 1) % len
  {
    var q, r := a / len, a % len;
    assert a == q * len + r;
    if r + 1 < len {
      ModUnique(a + 1, len, q, r + 1);
      ModUnique(r + 1, len, 0, r + 1);
    } else {
      ModUnique(a + 1, len, q + 1, 0);
      ModUnique(r + 1, len, 1, 0);
    }
  }

  /**
   * `setIndexes(prev => ({ ...prev, [key]: step(prev[key] || 0) }))`: only the entry of `key`
   * changes (and is created when missing, counting from 0); it stays a valid picture index.
   */
  function Stepped(m: map<int, int>, key: int, len: int, forward: bool): (r: map<int, int>)
    requires 0 < len
    requires key in m ==> 0 <= m[key] < len
    ensures r.Keys == m.Keys + {key}
    ensures forall k :: k in m && k != key ==> r[k] == m[k]
    ensures 0 <= r[key] < len
    ensures var cur := if key in m then m[key] else 0;
            r[key] == if forward then Next(cur, len) else Prev(cur, len)
  {
    var cur := if key in m then m[key] else 0;
    m[key := if forward then Next(cur, len) else Prev(cur, len)]
  }
}
