/** Runs of a transition system, and induction over them. */
module Runs {

  /** Each state of ss leads to the next. */
  ghost predicate Run<S(!new)>(next: (S, S) -> bool, ss: seq<S>) {
    |ss| > 0 && forall k :: 0 < k < |ss| ==> next(ss[k - 1], ss[k])
  }

  /** What every step keeps holds in every state of a run. */
  lemma {:induction false} Always<S(!new)>(next: (S, S) -> bool, inv: S -> bool, ss: seq<S>, k: nat)
    requires Run(next, ss) && inv(ss[0]) && k < |ss|
    requires forall s, t :: inv(s) && next(s, t) ==> inv(t)
    ensures inv(ss[k])
  {
    if k > 0 {
      Always(next, inv, ss, k - 1);
    }
  }

  /** Some run leads from s to t. */
  ghost predicate Reaches<S(!new)>(next: (S, S) -> bool, s: S, t: S) {
    exists ss :: Run(next, ss) && ss[0] == s && ss[|ss| - 1] == t
  }

  lemma Stays<S(!new)>(next: (S, S) -> bool, s: S)
    ensures Reaches(next, s, s)
  {
    assert Run(next, [s]);
  }

  lemma Onward<S(!new)>(next: (S, S) -> bool, s: S, t: S, u: S)
    requires Reaches(next, s, t) && next(t, u)
    ensures Reaches(next, s, u)
  {
    var ss :| Run(next, ss) && ss[0] == s && ss[|ss| - 1] == t;
    assert Run(next, ss + [u]);
  }

  lemma Chained<S(!new)>(next: (S, S) -> bool, s: S, t: S, u: S)
    requires Reaches(next, s, t) && Reaches(next, t, u)
    ensures Reaches(next, s, u)
  {
    var ss :| Run(next, ss) && ss[0] == s && ss[|ss| - 1] == t;
    var tt :| Run(next, tt) && tt[0] == t && tt[|tt| - 1] == u;
    assert Run(next, ss + tt[1..]);
    assert |tt| == 1 ==> t == u;
  }
}
