/** Two machines stepped side by side. */
module Lockstep {

  /** Steps that agree as long as nothing is diverted agree up to the first diversion. */
  lemma {:induction false} UpToFirst(agrees: nat -> bool, diverts: nat -> bool, n: nat)
    requires agrees(0) && forall k: nat :: agrees(k) ==> (agrees(k + 1) <==> !diverts(k))
    ensures (forall k: nat :: k <= n ==> agrees(k)) <==> (forall k: nat :: k < n ==> !diverts(k))
  {
    if n > 0 {
      UpToFirst(agrees, diverts, n - 1);
      assert agrees(n - 1) ==> (agrees(n - 1 + 1) <==> !diverts(n - 1));
    }
  }

  /** The first n entries of a listing, joined. */
  function Joined<T>(f: nat -> seq<T>, n: nat): seq<T> { if n == 0 then [] else Joined(f, n - 1) + f(n - 1) }

  lemma {:induction false} JoinedSame<T>(f: nat -> seq<T>, g: nat -> seq<T>, n: nat)
    requires forall k: nat :: k < n ==> f(k) == g(k)
    ensures Joined(f, n) == Joined(g, n)
  {
    if n > 0 {
      JoinedSame(f, g, n - 1);
    }
  }
}
