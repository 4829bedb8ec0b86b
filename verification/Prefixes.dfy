/** What holds at every moment of a run, and what exactly can end it. */
module Prefixes {
  /** p holds after every prefix, the empty one and the whole included. */
  ghost predicate Throughout<T(!new)>(xs: seq<T>, p: seq<T> -> bool) {
    forall i :: 0 <= i <= |xs| ==> p(xs[..i])
  }

  /** No element does harm where it stands. */
  ghost predicate Harmless<T(!new)>(xs: seq<T>, harm: (seq<T>, T) -> bool) {
    forall i :: 0 <= i < |xs| ==> !harm(xs[..i], xs[i])
  }

  /** What holds at first and is kept by every element holds throughout. */
  lemma {:induction false} Persists<T(!new)>(xs: seq<T>, p: seq<T> -> bool)
    requires p([]) && forall i :: 0 <= i < |xs| && p(xs[..i]) ==> p(xs[..i + 1])
    ensures Throughout(xs, p)
  {
    forall i | 0 <= i <= |xs|
      ensures p(xs[..i])
    {
      PersistsTo(xs, p, i);
    }
  }

  lemma {:induction false} PersistsTo<T(!new)>(xs: seq<T>, p: seq<T> -> bool, i: nat)
    requires p([]) && (forall j :: 0 <= j < |xs| && p(xs[..j]) ==> p(xs[..j + 1])) && i <= |xs|
    ensures p(xs[..i])
  {
    if i == 0 {
      assert xs[..0] == [];
    } else {
      PersistsTo(xs, p, i - 1);
    }
  }

  /** Where p holds, one more element keeps it exactly if it does no harm. */
  ghost predicate HarmEnds<T(!new)>(xs: seq<T>, p: seq<T> -> bool, harm: (seq<T>, T) -> bool) {
    forall i :: 0 <= i < |xs| && p(xs[..i]) ==> (p(xs[..i + 1]) <==> !harm(xs[..i], xs[i]))
  }

  /** Then p holds throughout if and only if nothing does harm. */
  lemma {:induction false} ThroughoutIff<T(!new)>(xs: seq<T>, p: seq<T> -> bool, harm: (seq<T>, T) -> bool)
    requires p([]) && HarmEnds(xs, p, harm)
    ensures Throughout(xs, p) <==> Harmless(xs, harm)
  {
    if Harmless(xs, harm) {
      forall i | 0 <= i <= |xs|
        ensures p(xs[..i])
      {
        HoldsUpTo(xs, p, harm, i);
      }
    } else {
      var i :| 0 <= i < |xs| && harm(xs[..i], xs[i]);
      assert !(p(xs[..i]) && p(xs[..i + 1]));
    }
  }

  lemma {:induction false} HoldsUpTo<T(!new)>(xs: seq<T>, p: seq<T> -> bool, harm: (seq<T>, T) -> bool, i: nat)
    requires p([]) && HarmEnds(xs, p, harm) && Harmless(xs, harm) && i <= |xs|
    ensures p(xs[..i])
  {
    if i == 0 {
      assert xs[..0] == [];
    } else {
      HoldsUpTo(xs, p, harm, i - 1);
    }
  }

  /** Two properties of which the second can only be spoken of while the first holds. */
  lemma {:induction false} BothThroughoutIff<T(!new)>(xs: seq<T>, p: seq<T> -> bool, q: seq<T> -> bool,
                                                      harm: (seq<T>, T) -> bool, harm2: (seq<T>, T) -> bool)
    requires p([]) && q([]) && HarmEnds(xs, p, harm)
    requires forall i :: 0 <= i < |xs| && p(xs[..i]) && q(xs[..i]) && !harm(xs[..i], xs[i]) ==>
                           (q(xs[..i + 1]) <==> !harm2(xs[..i], xs[i]))
    ensures Throughout(xs, p) && Throughout(xs, q) <==> Harmless(xs, harm) && Harmless(xs, harm2)
  {
    ThroughoutIff(xs, p, harm);
    if Harmless(xs, harm) {
      assert HarmEnds(xs, q, harm2);
      ThroughoutIff(xs, q, harm2);
    }
  }

  /** While p and the auxiliary q hold, one more element keeps p exactly if it does no harm, and then q too. */
  ghost predicate HarmEndsGiven<T(!new)>(xs: seq<T>, p: seq<T> -> bool, q: seq<T> -> bool, harm: (seq<T>, T) -> bool) {
    forall i :: 0 <= i < |xs| && p(xs[..i]) && q(xs[..i]) ==>
                  (p(xs[..i + 1]) <==> !harm(xs[..i], xs[i])) && (!harm(xs[..i], xs[i]) ==> q(xs[..i + 1]))
  }

  /** Then p holds throughout if and only if nothing does harm, and q with it. */
  lemma {:induction false} ThroughoutIffGiven<T(!new)>(xs: seq<T>, p: seq<T> -> bool, q: seq<T> -> bool,
                                                       harm: (seq<T>, T) -> bool)
    requires p([]) && q([]) && HarmEndsGiven(xs, p, q, harm)
    ensures Throughout(xs, p) <==> Harmless(xs, harm)
    ensures Throughout(xs, p) ==> Throughout(xs, q)
  {
    if Throughout(xs, p) || Harmless(xs, harm) {
      forall i | 0 <= i <= |xs|
        ensures p(xs[..i]) && q(xs[..i])
      {
        HoldsUpToGiven(xs, p, q, harm, i);
      }
      forall i | 0 <= i < |xs|
        ensures !harm(xs[..i], xs[i])
      {
        assert p(xs[..i]) && q(xs[..i]) && p(xs[..i + 1]);
      }
    }
  }

  lemma {:induction false} HoldsUpToGiven<T(!new)>(xs: seq<T>, p: seq<T> -> bool, q: seq<T> -> bool,
                                                   harm: (seq<T>, T) -> bool, i: nat)
    requires p([]) && q([]) && HarmEndsGiven(xs, p, q, harm) && (Throughout(xs, p) || Harmless(xs, harm)) && i <= |xs|
    ensures p(xs[..i]) && q(xs[..i])
  {
    if i == 0 {
      assert xs[..0] == [];
    } else {
      HoldsUpToGiven(xs, p, q, harm, i - 1);
    }
  }

  /** A quantity no element lowers is no lower after a longer prefix. */
  lemma {:induction false} Climbs<T(!new)>(xs: seq<T>, f: seq<T> -> int, i: nat, j: nat)
    requires i <= j <= |xs| && forall k :: 0 <= k < |xs| ==> f(xs[..k]) <= f(xs[..k + 1])
    ensures f(xs[..i]) <= f(xs[..j])
  {
    if i < j {
      Climbs(xs, f, i, j - 1);
    }
  }
}
