/** Sizes of finite sets of thread numbers. */
module Finite {

  ghost function Range(n: nat): set<nat> {
    if n == 0 then {} else Range(n - 1) + {n - 1}
  }

  lemma {:induction false} RangeSize(n: nat)
    ensures |Range(n)| == n
    ensures forall t: nat :: t in Range(n) <==> t < n
  {
    if n > 0 { RangeSize(n - 1); }
  }

  lemma {:induction false} Fewer(a: set<nat>, b: set<nat>)
    requires a <= b
    ensures |a| <= |b|
  {
    if t :| t in a {
      Fewer(a - {t}, b - {t});
    }
  }
}
