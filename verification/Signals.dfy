/** Aggregation of what the signal providers of one sample observe. */
module Signals {
  datatype Signal = Unknown | Idle | Interactive | Game

  /** What a provider says. A failed provider says Unknown; any other text is invalid. */
  datatype Observation = Says(signal: Signal) | Invalid(text: string)

  /** Positive signals win, and only unanimous idleness is idle. */
  function Aggregated(observations: seq<Observation>): Signal {
    if Says(Game) in observations then Game
    else if Says(Interactive) in observations then Interactive
    else if observations != [] && forall o | o in observations :: o == Says(Idle) then Idle
    else Unknown
  }

  method Aggregate(observations: seq<Observation>) returns (signal: Signal)
    ensures signal == Aggregated(observations)
  {
    if |observations| == 0 {
      return Unknown;
    }
    var targets := [Game, Interactive];
    for t := 0 to 2
      invariant forall u | 0 <= u < t :: Says(targets[u]) !in observations
    {
      for i := 0 to |observations|
        invariant Says(targets[t]) !in observations[..i]
      {
        if observations[i] == Says(targets[t]) {
          assert t == 1 ==> Says(targets[0]) !in observations;
          return targets[t];
        }
      }
      assert observations[..|observations|] == observations;
    }
    assert Says(targets[0]) !in observations && Says(targets[1]) !in observations;
    var unknownReasons, idleReasons := 0, 0;
    for i := 0 to |observations|
      invariant unknownReasons >= 0
      invariant unknownReasons == 0 <==> forall j | 0 <= j < i :: observations[j] == Says(Idle)
    {
      if observations[i] == Says(Idle) {
        idleReasons := idleReasons + 1;
      } else {
        unknownReasons := unknownReasons + 1;
      }
    }
    if unknownReasons > 0 {
      ghost var j :| 0 <= j < |observations| && observations[j] != Says(Idle);
      assert observations[j] in observations;
      return Unknown;
    }
    return Idle;
  }

  /** The order in which providers are asked does not matter. */
  lemma AggregateIgnoresOrder(a: seq<Observation>, b: seq<Observation>)
    requires multiset(a) == multiset(b)
    ensures Aggregated(a) == Aggregated(b)
  {
    assert |multiset(a)| == |a| && |multiset(b)| == |b|;
    forall o
      ensures o in a <==> o in b
    {
      assert o in multiset(a) <==> o in multiset(b);
    }
  }

  /** Another provider can raise the signal or turn idle into unknown, but never hide activity. */
  lemma MoreProvidersNeverHideActivity(a: seq<Observation>, o: Observation)
    ensures Aggregated(a) == Game ==> Aggregated(a + [o]) == Game
    ensures Aggregated(a) == Interactive ==> Aggregated(a + [o]) in {Interactive, Game}
    ensures a != [] && Aggregated(a + [o]) == Idle ==> Aggregated(a) == Idle && o == Says(Idle)
  {
    assert forall x :: x in a + [o] <==> x in a || x == o;
    assert o in a + [o];
  }
}
