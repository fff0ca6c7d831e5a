/** Sums over threads, which bound how long a schedule can go on. A thread is a natural number. */
module Schedules {

  /** The work of all threads below `n`. */
  function Total(work: nat -> nat, n: nat): nat {
    if n == 0 then 0 else Total(work, n - 1) + work(n - 1)
  }

  /** When one thread moves, the total moves with it. */
  lemma {:induction false} TotalMoves(work: nat -> nat, work': nat -> nat, t: nat, n: nat)
    requires forall u: nat :: u != t ==> work'(u) == work(u)
    ensures Total(work', n) == Total(work, n) + if t < n then work'(t) - work(t) else 0
  {
    if n > 0 {
      TotalMoves(work, work', t, n - 1);
    }
  }

  lemma {:induction false} SomeBound(busy: set<nat>) returns (n: nat)
    ensures forall t: nat :: t in busy ==> t < n
  {
    if busy == {} {
      n := 0;
    } else {
      var t :| t in busy;
      var m := SomeBound(busy - {t});
      n := if m <= t then t + 1 else m;
      assert forall u: nat :: u in busy ==> u == t || u in busy - {t};
    }
  }
}
