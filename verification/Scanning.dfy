/** Loops that follow a cursor through a buffer. The cursor may be led back, so such a loop need not end; when it
    does is decided here for all of them. */
module Scanning {
  /** What comes of reading: a value, an exception (an index or a copy outside the buffer, a negative length), or
      nothing, because the loop never ends. */
  datatype Outcome<T> = Done(value: T) | Threw | Loops

  /** What one round of the loop does at a position. */
  datatype Round<T> = Stop(result: Outcome<T>) | Go(pos: nat)

  /** Beyond the buffer every round ends the loop. */
  ghost predicate Bounded<T(!new)>(f: nat -> Round<T>, size: nat) {
    forall p: nat :: if f(p).Go? then p < size else f(p).result != Loops
  }

  /** The state after `n` rounds from `pos`, or the result if the loop ended before. */
  function After<T>(f: nat -> Round<T>, pos: nat, n: nat): Round<T>
    decreases n
  {
    if n == 0 then Go(pos)
    else match f(pos) case Stop(r) => Stop(r) case Go(next) => After(f, next, n - 1)
  }

  /** The result of the loop. The number of rounds is no limit: see `EndsInTime`. */
  function Scan<T>(f: nat -> Round<T>, size: nat, pos: nat): Outcome<T> {
    match After(f, pos, size + 1) case Stop(r) => r case Go(_) => Loops
  }

  ghost predicate Ends<T(!new)>(f: nat -> Round<T>, pos: nat) {
    exists n :: After(f, pos, n).Stop?
  }

  /** The cursor is twice at the same place. */
  ghost predicate ComesBack<T(!new)>(f: nat -> Round<T>, pos: nat) {
    exists i: nat, j: nat :: Meets(f, pos, i, j)
  }

  ghost predicate Meets<T>(f: nat -> Round<T>, pos: nat, i: nat, j: nat) {
    i < j && After(f, pos, i).Go? && After(f, pos, i) == After(f, pos, j)
  }

  lemma {:induction false} AfterSum<T>(f: nat -> Round<T>, pos: nat, a: nat, b: nat)
    ensures After(f, pos, a + b)
         == match After(f, pos, a) case Stop(r) => Stop(r) case Go(next) => After(f, next, b)
    decreases a
  {
    if a > 0 && f(pos).Go? {
      AfterSum(f, f(pos).pos, a - 1, b);
    }
  }

  lemma {:induction false} StopsAreResults<T(!new)>(f: nat -> Round<T>, size: nat, pos: nat, n: nat)
    requires Bounded(f, size)
    ensures After(f, pos, n).Stop? ==> After(f, pos, n).result != Loops
    decreases n
  {
    if n > 0 && f(pos).Go? {
      StopsAreResults(f, size, f(pos).pos, n - 1);
    }
  }

  /** Once back, for ever back. */
  lemma {:induction false} ComingBackLoops<T>(f: nat -> Round<T>, pos: nat, i: nat, j: nat, n: nat)
    requires Meets(f, pos, i, j)
    ensures After(f, pos, n).Go?
    decreases n
  {
    if n <= j {
      AfterSum(f, pos, n, j - n);
    } else {
      AfterSum(f, pos, j, n - j);
      AfterSum(f, pos, i, n - j);
      ComingBackLoops(f, pos, i, j, n - j + i);
    }
  }

  /** The places of the first rounds, none of which ended the loop. */
  function Places<T>(f: nat -> Round<T>, pos: nat, n: nat): seq<nat>
    requires forall k | 0 <= k < n :: After(f, pos, k).Go?
  {
    seq(n, k requires 0 <= k < n => After(f, pos, k).pos)
  }

  lemma {:induction false} Pigeonhole(s: seq<nat>, size: nat) returns (i: nat, j: nat)
    requires |s| > size && forall k | 0 <= k < |s| :: s[k] < size
    ensures i < j < |s| && s[i] == s[j]
    decreases size
  {
    assert s[0] < size;
    if k, l :| 0 <= k < l < |s| && s[k] == size - 1 == s[l] {
      i, j := k, l;
    } else if k :| 0 <= k < |s| && s[k] == size - 1 {
      i, j := Pigeonhole(s[..k] + s[k + 1..], size - 1);
      i, j := if i < k then i else i + 1, if j < k then j else j + 1;
    } else {
      i, j := Pigeonhole(s[1..], size - 1);
      i, j := i + 1, j + 1;
    }
  }

  lemma StillGoing<T>(f: nat -> Round<T>, pos: nat, k: nat, n: nat)
    requires After(f, pos, n).Go? && k <= n
    ensures After(f, pos, k).Go?
    ensures k < n ==> f(After(f, pos, k).pos).Go?
  {
    AfterSum(f, pos, k, n - k);
    if k < n {
      assert After(f, After(f, pos, k).pos, n - k).Go?;
    }
  }

  /** A loop still going after one round more than the buffer has bytes has been somewhere twice. */
  lemma LongLoopsComeBack<T(!new)>(f: nat -> Round<T>, size: nat, pos: nat)
    requires Bounded(f, size) && After(f, pos, size + 1).Go?
    ensures ComesBack(f, pos)
  {
    forall k | 0 <= k < size + 1 ensures After(f, pos, k).Go? && After(f, pos, k).pos < size {
      StillGoing(f, pos, k, size + 1);
    }
    var places := Places(f, pos, size + 1);
    var i, j := Pigeonhole(places, size);
    assert places[i] == places[j];
    assert Meets(f, pos, i, j);
  }

  /** A loop ends exactly when its cursor is nowhere twice, and then within one round more than the buffer has
      bytes; so `Scan` tells exactly the loops that never end. */
  lemma EndsInTime<T(!new)>(f: nat -> Round<T>, size: nat, pos: nat)
    requires Bounded(f, size)
    ensures Ends(f, pos) <==> !ComesBack(f, pos)
    ensures Ends(f, pos) <==> After(f, pos, size + 1).Stop?
    ensures Ends(f, pos) <==> Scan(f, size, pos) != Loops
  {
    StopsAreResults(f, size, pos, size + 1);
    if ComesBack(f, pos) {
      var i: nat, j: nat :| Meets(f, pos, i, j);
      forall n ensures After(f, pos, n).Go? {
        ComingBackLoops(f, pos, i, j, n);
      }
    }
    if After(f, pos, size + 1).Go? {
      LongLoopsComeBack(f, size, pos);
    }
  }

  /** One round, and then the rest of the loop. */
  lemma ScanRound<T(!new)>(f: nat -> Round<T>, size: nat, pos: nat)
    requires Bounded(f, size)
    ensures Scan(f, size, pos) == match f(pos) case Stop(r) => r case Go(next) => Scan(f, size, next)
  {
    if f(pos).Go? {
      var next := f(pos).pos;
      assert After(f, pos, size + 1) == After(f, next, size);
      assert After(f, pos, size + 2) == After(f, next, size + 1);
      EndsInTime(f, size, pos);
      AfterSum(f, pos, size + 1, 1);
      AfterSum(f, next, size, 1);
    }
  }

  /** A cursor that only moves forward arrives. */
  lemma ForwardEnds<T(!new)>(f: nat -> Round<T>, size: nat, pos: nat)
    requires Bounded(f, size) && forall p: nat :: f(p).Go? ==> f(p).pos > p
    ensures Scan(f, size, pos) != Loops
  {
    if After(f, pos, size + 1).Go? {
      MovesForward(f, pos, size + 1);
      StillGoing(f, pos, size, size + 1);
      MovesForward(f, pos, size);
    }
    StopsAreResults(f, size, pos, size + 1);
  }

  lemma {:induction false} MovesForward<T>(f: nat -> Round<T>, pos: nat, n: nat)
    requires (forall p: nat :: f(p).Go? ==> f(p).pos > p) && After(f, pos, n).Go?
    ensures After(f, pos, n).pos >= pos + n
    decreases n
  {
    if n > 0 {
      MovesForward(f, f(pos).pos, n - 1);
    }
  }

  lemma {:induction false} StandingStill<T>(f: nat -> Round<T>, pos: nat, n: nat)
    requires f(pos) == Go(pos)
    ensures After(f, pos, n) == Go(pos)
    decreases n
  {
    if n > 0 {
      StandingStill(f, pos, n - 1);
    }
  }
}
