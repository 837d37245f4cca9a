/**
 * The orders in which a backtracking regular-expression matcher tries its
 * choices: lazy quantifiers from the shortest upwards, greedy quantifiers from
 * the longest downwards. A pattern's first match is the first candidate, in
 * that order, that satisfies its shape. The functions state what the match
 * they return satisfies; the lemmas state that no earlier candidate fits.
 */
module Search {
  import opened Wrappers
  import opened Text

  /** The least `c` in `[lo, hi]` with `P(c)`. */
  function First(lo: nat, hi: nat, P: nat -> bool): (r: Option<nat>)
    ensures r.Some? ==> lo <= r.value <= hi && P(r.value)
    decreases if lo <= hi then hi - lo + 1 else 0
  {
    if lo > hi then None
    else if P(lo) then Some(lo)
    else First(lo + 1, hi, P)
  }

  /** No value below the one `First` returns satisfies `P`, and it returns None
      only when no value in the range does. */
  lemma {:induction false} FirstIsLeast(lo: nat, hi: nat, P: nat -> bool)
    ensures First(lo, hi, P).Some? ==> forall c :: lo <= c < First(lo, hi, P).value ==> !P(c)
    ensures First(lo, hi, P).None? <==> forall c :: lo <= c <= hi ==> !P(c)
    decreases if lo <= hi then hi - lo + 1 else 0
  {
    if lo <= hi && !P(lo) {
      FirstIsLeast(lo + 1, hi, P);
    }
  }

  /** The first end `c` of a lazy capture `(X+?)` that begins at `b`, where `Cap`
      is the class `X` and `Tail` says whether the rest of the pattern matches
      from `c`. */
  function LazyEnd(s: string, b: nat, Cap: char -> bool, Tail: nat -> bool): (r: Option<nat>)
    requires b <= |s|
    ensures r.Some? ==> b < r.value <= RunEnd(s, b, Cap) && Tail(r.value)
  {
    First(b + 1, RunEnd(s, b, Cap), Tail)
  }

  /** The lazy capture is the shortest one the tail accepts. */
  lemma LazyEndIsShortest(s: string, b: nat, Cap: char -> bool, Tail: nat -> bool)
    requires b <= |s|
    ensures LazyEnd(s, b, Cap, Tail).Some? ==>
      forall c :: b < c < LazyEnd(s, b, Cap, Tail).value ==> !Tail(c)
    ensures LazyEnd(s, b, Cap, Tail).None? <==> forall c :: b < c <= RunEnd(s, b, Cap) ==> !Tail(c)
  {
    FirstIsLeast(b + 1, RunEnd(s, b, Cap), Tail);
  }

  /** The first `(b, c)` with `a < b <= hi` for `\s+(X+?)` followed by a tail: the
      capture start `b` is tried from `hi` downwards (the preceding `\s+` is greedy)
      and for each start the capture end `c` from the shortest capture up. */
  function GreedyThenLazy(s: string, a: nat, hi: nat, Cap: char -> bool, Tail: nat -> bool): (r: Option<(nat, nat)>)
    requires hi <= |s|
    ensures r.Some? ==> a < r.value.0 <= hi && LazyEnd(s, r.value.0, Cap, Tail) == Some(r.value.1)
    decreases hi
  {
    if hi <= a then None
    else
      var c := LazyEnd(s, hi, Cap, Tail);
      if c.Some? then Some((hi, c.value))
      else GreedyThenLazy(s, a, hi - 1, Cap, Tail)
  }

  /** Every start above the one chosen admits no capture, and there is no
      match exactly when no start admits one. */
  lemma {:induction false} GreedyThenLazyIsFirst(s: string, a: nat, hi: nat, Cap: char -> bool, Tail: nat -> bool)
    requires hi <= |s|
    ensures GreedyThenLazy(s, a, hi, Cap, Tail).Some? ==>
      forall b :: GreedyThenLazy(s, a, hi, Cap, Tail).value.0 < b <= hi ==> LazyEnd(s, b, Cap, Tail).None?
    ensures GreedyThenLazy(s, a, hi, Cap, Tail).None? <==>
      forall b :: a < b <= hi ==> LazyEnd(s, b, Cap, Tail).None?
    decreases hi
  {
    if a < hi && LazyEnd(s, hi, Cap, Tail).None? {
      GreedyThenLazyIsFirst(s, a, hi - 1, Cap, Tail);
    }
  }

  /** `\s+(X+?)` followed by a tail, the white-space run starting at `a`. */
  function WsThenLazy(s: string, a: nat, Cap: char -> bool, Tail: nat -> bool): (r: Option<(nat, nat)>)
    requires a <= |s|
    ensures r.Some? ==> a < r.value.0 <= RunEnd(s, a, IsWs)
    ensures r.Some? ==> r.value.0 < r.value.1 <= RunEnd(s, r.value.0, Cap) && Tail(r.value.1)
  {
    GreedyThenLazy(s, a, RunEnd(s, a, IsWs), Cap, Tail)
  }

  /** The pair `WsThenLazy` returns is the first in backtracking order: no
      longer white-space run admits a capture, and the capture is the shortest
      for its start. It returns None exactly when no pair fits at all. */
  lemma {:induction false} WsThenLazyIsFirst(s: string, a: nat, Cap: char -> bool, Tail: nat -> bool)
    requires a <= |s|
    ensures WsThenLazy(s, a, Cap, Tail).Some? ==>
      var (b, c) := WsThenLazy(s, a, Cap, Tail).value;
      (forall b' :: b < b' <= RunEnd(s, a, IsWs) ==> LazyEnd(s, b', Cap, Tail).None?) &&
      (forall c' :: b < c' < c ==> !Tail(c'))
    ensures WsThenLazy(s, a, Cap, Tail).None? <==>
      forall b, c :: a < b <= RunEnd(s, a, IsWs) && b < c <= RunEnd(s, b, Cap) ==> !Tail(c)
  {
    var e := RunEnd(s, a, IsWs);
    var r := WsThenLazy(s, a, Cap, Tail);
    GreedyThenLazyIsFirst(s, a, e, Cap, Tail);
    if r.Some? {
      var b, c := r.value.0, r.value.1;
      LazyEndIsShortest(s, b, Cap, Tail);
      assert a < b <= e && b < c <= RunEnd(s, b, Cap) && Tail(c);
    } else {
      forall b, c | a < b <= e && b < c <= RunEnd(s, b, Cap) ensures !Tail(c) {
        assert LazyEnd(s, b, Cap, Tail).None?;
        LazyEndIsShortest(s, b, Cap, Tail);
      }
    }
  }

  /** The leftmost `i` in `[from, hi]` at which the matcher `M` finds a match,
      with that match: `RegExp.prototype.exec` from `lastIndex == from`. */
  function Leftmost<T>(M: nat -> Option<T>, from: nat, hi: nat): (r: Option<(nat, T)>)
    ensures r.Some? ==> from <= r.value.0 <= hi && M(r.value.0) == Some(r.value.1)
    decreases if from <= hi then hi - from + 1 else 0
  {
    if from > hi then None
    else match M(from)
      case Some(m) => Some((from, m))
      case None => Leftmost(M, from + 1, hi)
  }

  /** No match starts between `from` and the one found, and there is none at
      all when the search returns None. */
  lemma {:induction false} LeftmostIsFirst<T>(M: nat -> Option<T>, from: nat, hi: nat)
    ensures Leftmost(M, from, hi).Some? ==> forall i :: from <= i < Leftmost(M, from, hi).value.0 ==> M(i).None?
    ensures Leftmost(M, from, hi).None? <==> forall i :: from <= i <= hi ==> M(i).None?
    decreases if from <= hi then hi - from + 1 else 0
  {
    if from <= hi && M(from).None? {
      LeftmostIsFirst(M, from + 1, hi);
    }
  }

  /** Every match `M` finds at a `j` up to `hi` ends after `j` and no later than `hi`. */
  predicate Advances<T>(M: nat -> Option<T>, End: T -> nat, hi: nat) {
    forall j :: 0 <= j <= hi && M(j).Some? ==> j < End(M(j).value) <= hi
  }

  /** A global scan, `while ((m = re.exec(s)) !== null)`: the leftmost match at
      or after `from`, then the scan resumes where that match ends. Each entry
      is a match with its start. A match that does not end after its start
      would leave `lastIndex` where it is; the scan stops there (no matcher
      that `Advances` produces one). */
  function Scan<T>(M: nat -> Option<T>, End: T -> nat, from: nat, hi: nat): seq<(nat, T)>
    decreases if from <= hi then hi - from + 1 else 0
  {
    match Leftmost(M, from, hi)
    case None => []
    case Some((i, m)) => if i < End(m) then [(i, m)] + Scan(M, End, End(m), hi) else [(i, m)]
  }

  /** The scan reports matches, in text order and without overlap. */
  lemma {:induction false} ScanOrdered<T>(M: nat -> Option<T>, End: T -> nat, from: nat, hi: nat)
    ensures forall k :: 0 <= k < |Scan(M, End, from, hi)| ==>
      from <= Scan(M, End, from, hi)[k].0 && M(Scan(M, End, from, hi)[k].0) == Some(Scan(M, End, from, hi)[k].1)
    ensures forall k :: 0 <= k < |Scan(M, End, from, hi)| - 1 ==>
      End(Scan(M, End, from, hi)[k].1) <= Scan(M, End, from, hi)[k + 1].0
    decreases if from <= hi then hi - from + 1 else 0
  {
    match Leftmost(M, from, hi)
    case None =>
    case Some((i, m)) =>
      if i < End(m) {
        ScanOrdered(M, End, End(m), hi);
        assert Scan(M, End, from, hi) == [(i, m)] + Scan(M, End, End(m), hi);
      }
  }

  /** The scan misses no match: every position at which `M` matches is the
      start of a reported match or lies inside one. */
  lemma {:induction false} ScanComplete<T>(M: nat -> Option<T>, End: T -> nat, from: nat, hi: nat, i: nat)
    requires from <= i <= hi && Advances(M, End, hi) && M(i).Some?
    ensures exists k :: 0 <= k < |Scan(M, End, from, hi)| && Scan(M, End, from, hi)[k].0 <= i < End(Scan(M, End, from, hi)[k].1)
    decreases hi - from + 1
  {
    LeftmostIsFirst(M, from, hi);
    var (j, m) := Leftmost(M, from, hi).value;
    var rest := Scan(M, End, End(m), hi);
    assert Scan(M, End, from, hi) == [(j, m)] + rest;
    if End(m) <= i {
      ScanComplete(M, End, End(m), hi, i);
      var k :| 0 <= k < |rest| && rest[k].0 <= i < End(rest[k].1);
      assert Scan(M, End, from, hi)[k + 1] == rest[k];
    } else {
      assert Scan(M, End, from, hi)[0] == (j, m) && j <= i;
    }
  }

  /** The record `F` makes of each match of a scan, in order. */
  function Records<T, R>(ms: seq<(nat, T)>, F: T -> R): (out: seq<R>)
    ensures |out| == |ms|
  {
    if |ms| == 0 then [] else [F(ms[0].1)] + Records(ms[1..], F)
  }

  /** The `k`-th record is made from the `k`-th match. */
  lemma {:induction false} RecordsAt<T, R>(ms: seq<(nat, T)>, F: T -> R, k: nat)
    requires k < |ms|
    ensures Records(ms, F)[k] == F(ms[k].1)
  {
    if k > 0 {
      RecordsAt(ms[1..], F, k - 1);
    }
  }

  /** The loop `while ((m = re.exec(s)) !== null) list.push(F(m))` with
      `re.lastIndex` starting at 0: it appends the records of the scan's
      matches, in order, to `acc`. */
  method ScanRecords<T, R>(M: nat -> Option<T>, End: T -> nat, hi: nat, F: T -> R, acc: seq<R>) returns (out: seq<R>)
    requires Advances(M, End, hi)
    ensures out == acc + Records(Scan(M, End, 0, hi), F)
  {
    out := acc;
    var lastIndex := 0;
    var m := Leftmost(M, lastIndex, hi);
    while m.Some?
      invariant lastIndex <= hi && m == Leftmost(M, lastIndex, hi)
      invariant out + Records(Scan(M, End, lastIndex, hi), F) == acc + Records(Scan(M, End, 0, hi), F)
      decreases hi - lastIndex
    {
      var (i, x) := m.value;
      var rest := Scan(M, End, End(x), hi);
      assert Scan(M, End, lastIndex, hi) == [(i, x)] + rest;
      assert ([(i, x)] + rest)[1..] == rest;
      out := out + [F(x)];
      lastIndex := End(x);
      m := Leftmost(M, lastIndex, hi);
    }
  }

  /** The first element, from `from` on, on which `F` gives a value: its index
      and that value. */
  function FirstWith<T, U>(xs: seq<T>, F: T -> Option<U>, from: nat): (r: Option<(nat, U)>)
    ensures r.Some? ==> from <= r.value.0 < |xs| && F(xs[r.value.0]) == Some(r.value.1)
    decreases |xs| - from
  {
    if from >= |xs| then None
    else match F(xs[from])
      case Some(x) => Some((from, x))
      case None => FirstWith(xs, F, from + 1)
  }

  /** No earlier element has a value, and None means that none does. */
  lemma {:induction false} FirstWithIsFirst<T, U>(xs: seq<T>, F: T -> Option<U>, from: nat)
    ensures FirstWith(xs, F, from).Some? ==>
      forall k :: from <= k < FirstWith(xs, F, from).value.0 ==> F(xs[k]).None?
    ensures FirstWith(xs, F, from).None? <==> forall k :: from <= k < |xs| ==> F(xs[k]).None?
    decreases |xs| - from
  {
    if from < |xs| && F(xs[from]).None? {
      FirstWithIsFirst(xs, F, from + 1);
    }
  }
}
