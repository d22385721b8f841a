/**
 * Reachability over a successor relation: the link between the imperative
 * depth-first walks of the note graph (which collect notes into a list while
 * guarding against revisits) and the set-valued closures they compute.
 */
module Reach {

  /**
   * `s` is a discovery order from `start`: it begins with `start`, and every
   * later element is a successor of an earlier one.
   */
  predicate Generated<T>(succ: T -> set<T>, start: T, s: seq<T>)
  {
    |s| > 0 && s[0] == start
    && forall j :: 0 < j < |s| ==> exists i :: 0 <= i < j && s[j] in succ(s[i])
  }

  /** `S` holds the successors of each of its members. */
  ghost predicate Closed<T>(succ: T -> set<T>, S: set<T>)
  {
    forall x, y :: x in S && y in succ(x) ==> y in S
  }

  /** Everything discovered from `start` lies in every closed set holding `start`. */
  lemma {:induction false} GeneratedWithinClosed<T>(succ: T -> set<T>, start: T, s: seq<T>, S: set<T>)
    requires Generated(succ, start, s)
    requires Closed(succ, S) && start in S
    ensures forall j :: 0 <= j < |s| ==> s[j] in S
  {
    var j := 0;
    while j < |s|
      invariant 0 <= j <= |s|
      invariant forall k :: 0 <= k < j ==> s[k] in S
    {
      if j > 0 {
        var i :| 0 <= i < j && s[j] in succ(s[i]);
      }
      j := j + 1;
    }
  }

  /** A discovery order that is itself closed lists exactly the smallest closed set. */
  lemma GeneratedClosedIsLeast<T>(succ: T -> set<T>, start: T, s: seq<T>, S: set<T>)
    requires Generated(succ, start, s)
    requires Closed(succ, set x | x in s)
    requires Closed(succ, S) && start in S
    ensures (set x | x in s) <= S
  {
    GeneratedWithinClosed(succ, start, s, S);
  }

  /** Two closed discovery orders from the same start hold the same elements. */
  lemma GeneratedClosedUnique<T>(succ: T -> set<T>, start: T, s: seq<T>, t: seq<T>)
    requires Generated(succ, start, s) && Closed(succ, set x | x in s)
    requires Generated(succ, start, t) && Closed(succ, set x | x in t)
    ensures (set x | x in s) == (set x | x in t)
  {
    GeneratedClosedIsLeast(succ, start, s, set x | x in t);
    GeneratedClosedIsLeast(succ, start, t, set x | x in s);
  }

  // ---------------------------------------------------------------------
  // The reachable set as a function
  // ---------------------------------------------------------------------

  /** The successors, within `U`, of the members of `S`. */
  function Successors<T(==)>(succ: T -> set<T>, U: set<T>, S: set<T>): set<T>
  {
    set x, y | x in S && y in succ(x) && y in U :: y
  }

  /** The elements of `U` reached from `S` by following `succ` inside `U`, computed by widening `S` until nothing is added. */
  function Closure<T(==)>(succ: T -> set<T>, U: set<T>, S: set<T>): (r: set<T>)
    requires S <= U
    ensures S <= r <= U
    decreases U - S
  {
    var next := S + Successors(succ, U, S);
    if next == S then S
    else
      assert U - next < U - S;
      Closure(succ, U, next)
  }

  /** What `start` reaches, following `succ` inside the universe `U`. */
  function Reachable<T(==)>(succ: T -> set<T>, U: set<T>, start: T): set<T>
    requires start in U
  {
    Closure(succ, U, {start})
  }

  /** `succ` never leads out of `U`. */
  ghost predicate Inside<T>(succ: T -> set<T>, U: set<T>)
  {
    forall x | x in U :: succ(x) <= U
  }

  /** The closure is closed when `succ` stays inside the universe. */
  lemma {:induction false} ClosureClosed<T>(succ: T -> set<T>, U: set<T>, S: set<T>)
    requires S <= U && Inside(succ, U)
    ensures Closed(succ, Closure(succ, U, S))
    decreases U - S
  {
    var next := S + Successors(succ, U, S);
    if next == S {
      forall x, y | x in S && y in succ(x) ensures y in S {
        assert y in Successors(succ, U, S);
      }
    } else {
      assert U - next < U - S;
      ClosureClosed(succ, U, next);
    }
  }

  /** The closure lies inside every closed set that holds `S`. */
  lemma {:induction false} ClosureLeast<T>(succ: T -> set<T>, U: set<T>, S: set<T>, C: set<T>)
    requires S <= U && S <= C && Closed(succ, C)
    ensures Closure(succ, U, S) <= C
    decreases U - S
  {
    var next := S + Successors(succ, U, S);
    if next != S {
      assert Successors(succ, U, S) <= C;
      assert U - next < U - S;
      ClosureLeast(succ, U, next, C);
    }
  }

  /** A closed discovery order from `start` lists exactly what `start` reaches. */
  lemma GeneratedClosedIsReachable<T>(succ: T -> set<T>, U: set<T>, start: T, s: seq<T>)
    requires start in U && Inside(succ, U)
    requires Generated(succ, start, s) && Closed(succ, set x | x in s)
    ensures (set x | x in s) == Reachable(succ, U, start)
  {
    ClosureClosed(succ, U, {start});
    GeneratedWithinClosed(succ, start, s, Reachable(succ, U, start));
    ClosureLeast(succ, U, {start}, set x | x in s);
  }
}
