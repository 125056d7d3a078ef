/** Repeating a step: what it keeps, and where it comes to rest. */
module Iteration {
  ghost function Iterate<S>(f: S -> S, s: S, i: nat): S {
    if i == 0 then s else Iterate(f, f(s), i - 1)
  }

  lemma {:induction false} IterateKeeps<S(!new)>(f: S -> S, p: S -> bool, s: S, i: nat)
    requires p(s) && forall x :: p(x) ==> p(f(x))
    ensures p(Iterate(f, s, i))
    decreases i
  {
    if i > 0 { IterateKeeps(f, p, f(s), i - 1); }
  }

  lemma {:induction false} IterateStays<S>(f: S -> S, s: S, i: nat)
    requires f(s) == s
    ensures Iterate(f, s, i) == s
    decreases i
  {
    if i > 0 { IterateStays(f, s, i - 1); }
  }

  /** A step that decreases a measure whenever it changes anything has come to
      rest after as many repetitions as the measure says. */
  lemma {:induction false} IterateSettles<S(!new)>(f: S -> S, p: S -> bool, m: S -> nat, s: S, i: nat)
    requires p(s) && m(s) <= i
    requires forall x :: p(x) ==> p(f(x)) && (f(x) == x || m(f(x)) < m(x))
    ensures f(Iterate(f, s, i)) == Iterate(f, s, i)
    decreases i
  {
    if f(s) == s {
      IterateStays(f, s, i);
    } else {
      IterateSettles(f, p, m, f(s), i - 1);
    }
  }

  /** The same, for a property that every resting state has. */
  lemma RestAfter<S(!new)>(f: S -> S, p: S -> bool, m: S -> nat, q: S -> bool, s: S, i: nat)
    requires p(s) && m(s) <= i
    requires forall x :: p(x) ==> p(f(x)) && (f(x) == x || m(f(x)) < m(x)) && (f(x) == x ==> q(x))
    ensures p(Iterate(f, s, i)) && q(Iterate(f, s, i))
  {
    IterateKeeps(f, p, s, i);
    IterateSettles(f, p, m, s, i);
  }

  /** What holds at the start of a sequence and is kept from each place to the next
      holds at every place. */
  lemma {:induction false} HoldsAlong(p: nat -> bool, length: nat, i: nat)
    requires i <= length && p(0) && forall j: nat | j < length && p(j) :: p(j + 1)
    ensures p(i)
  {
    if i > 0 { HoldsAlong(p, length, i - 1); }
  }
}
