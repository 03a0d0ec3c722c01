/** The incremental evaluator is a function of its whole history. */
module DebounceLaws {
  import opened Signals
  import opened Debounce

  // --- What is current --------------------------------------------------------------------

  /** The debouncer after some samples. */
  function Debouncing(c: Config, h: seq<Signal>): Debouncer {
    if h == [] then Debouncer(Unknown, Unknown, 0) else Debounced(c, Debouncing(c, h[..|h| - 1]), h[|h| - 1])
  }

  /** Position k ends n samples of v in a row. */
  ghost predicate InARow(h: seq<Signal>, k: int, v: Signal, n: int) {
    n <= k <= |h| && 0 < k && forall i | k - n <= i < k :: h[i] == v
  }

  /** Position k ends as many samples of v in a row as v needs. */
  ghost predicate Completes(c: Config, h: seq<Signal>, k: int, v: Signal) {
    || (v == Game && InARow(h, k, v, c.game))
    || (v == Interactive && InARow(h, k, v, c.interactive))
    || (v == Idle && InARow(h, k, v, c.idle))
  }

  /** The last n samples are v, and the one before them is not. */
  ghost predicate TrailingRun(h: seq<Signal>, v: Signal, n: int) {
    && 0 < n <= |h|
    && (forall i | |h| - n <= i < |h| :: h[i] == v)
    && (n < |h| ==> h[|h| - n - 1] != v)
  }

  /** What is pending is the trailing run, short of its threshold. */
  ghost predicate PendingIsTrailing(c: Config, h: seq<Signal>) {
    var d := Debouncing(c, h);
    if d.pending == Unknown then d.pendingCount == 0 && (h == [] || h[|h| - 1] == Unknown || h[|h| - 1] == d.current)
    else d.pending != d.current && TrailingRun(h, d.pending, d.pendingCount) && !Completes(c, h, |h|, d.pending)
  }

  /** What is current completed latest, or nothing ever did. */
  ghost predicate CurrentIsLatest(c: Config, h: seq<Signal>, current: Signal) {
    if current == Unknown then forall k, v :: !Completes(c, h, k, v)
    else exists k :: Completes(c, h, k, current) && forall j, v | k < j :: !Completes(c, h, j, v)
  }

  /** Nothing but v completes at the end. */
  ghost predicate OnlyCompletes(c: Config, h: seq<Signal>, v: Signal) {
    forall u | Completes(c, h, |h|, u) :: u == v
  }

  lemma EarlierCompletion(c: Config, h: seq<Signal>, v: Signal, k: int, u: Signal)
    requires k <= |h|
    ensures Completes(c, h + [v], k, u) <==> Completes(c, h, k, u)
  {
    assert forall i | 0 <= i < |h| :: (h + [v])[i] == h[i];
  }

  /** The current signal holds over a sample that completes nothing new. */
  lemma CurrentHolds(c: Config, h: seq<Signal>, v: Signal, current: Signal)
    requires CurrentIsLatest(c, h, current) && OnlyCompletes(c, h + [v], current)
    ensures CurrentIsLatest(c, h + [v], current)
  {
    var longer := h + [v];
    forall k, u
      ensures Completes(c, longer, k, u) ==> k <= |h| + 1
      ensures Completes(c, longer, k, u) && k <= |h| ==> Completes(c, h, k, u)
    {
      if k <= |h| {
        EarlierCompletion(c, h, v, k, u);
      }
    }
    if current == Unknown {
      forall k, u
        ensures !Completes(c, longer, k, u)
      {
      }
    } else {
      var k :| Completes(c, h, k, current) && forall j, u | k < j :: !Completes(c, h, j, u);
      EarlierCompletion(c, h, v, k, current);
      hide Completes;
      var last := if Completes(c, longer, |longer|, current) then |longer| else k;
      forall j, u | last < j
        ensures !Completes(c, longer, j, u)
      {
      }
    }
  }

  lemma NewCurrent(c: Config, h: seq<Signal>, v: Signal)
    requires Completes(c, h, |h|, v)
    ensures CurrentIsLatest(c, h, v)
  {
    assert forall j, u | |h| < j :: !Completes(c, h, j, u);
  }

  /** A trailing run that is one longer, or starts over. */
  lemma RunGrows(h: seq<Signal>, v: Signal, n: int)
    requires TrailingRun(h, v, n)
    ensures TrailingRun(h + [v], v, n + 1)
  {
  }

  lemma RunStarts(h: seq<Signal>, v: Signal)
    requires h == [] || h[|h| - 1] != v
    ensures TrailingRun(h + [v], v, 1)
  {
  }

  /** A completion at the end is a trailing run that is long enough. */
  lemma CompletionIsLongRun(c: Config, h: seq<Signal>, v: Signal, n: int)
    requires c.Usable() && v != Unknown && TrailingRun(h, v, n)
    ensures Completes(c, h, |h|, v) <==> n >= c.Required(v)
    ensures v == Game ==> (Completes(c, h, |h|, v) <==> n >= c.game)
    ensures v == Interactive ==> (Completes(c, h, |h|, v) <==> n >= c.interactive)
    ensures v == Idle ==> (Completes(c, h, |h|, v) <==> n >= c.idle)
  {
    if n < c.Required(v) && c.Required(v) <= |h| {
      assert h[|h| - n - 1] != v;
    }
  }

  lemma NoCompletionOfOthers(c: Config, h: seq<Signal>, v: Signal)
    requires c.Usable()
    ensures OnlyCompletes(c, h + [v], v) && !Completes(c, h + [v], |h| + 1, Unknown)
  {
    assert (h + [v])[|h|] == v;
  }

  lemma SampleKeepsHistory(c: Config, h: seq<Signal>, v: Signal)
    requires c.Usable() && PendingIsTrailing(c, h) && CurrentIsLatest(c, h, Debouncing(c, h).current)
    ensures PendingIsTrailing(c, h + [v]) && CurrentIsLatest(c, h + [v], Debouncing(c, h + [v]).current)
  {
    var d, after := Debouncing(c, h), Debouncing(c, h + [v]);
    assert (h + [v])[..|h + [v]| - 1] == h;
    assert after == Debounced(c, d, v);
    assert h == h + [];
    NoCompletionOfOthers(c, h, v);
    hide Debouncing;
    if v == Unknown || v == d.current {
      CurrentHolds(c, h, v, d.current);
    } else {
      if v == d.pending {
        RunGrows(h, v, d.pendingCount);
      } else {
        assert h != [] && h[|h| - 1] == v ==> d.pending != Unknown;
        RunStarts(h, v);
      }
      var n := if v == d.pending then d.pendingCount + 1 else 1;
      CompletionIsLongRun(c, h + [v], v, n);
      hide Completes, TrailingRun;
      if n >= c.Required(v) {
        NewCurrent(c, h + [v], v);
      } else {
        CurrentHolds(c, h, v, d.current);
      }
    }
    hide CurrentIsLatest;
  }

  /**
   After any samples, what is current is the signal of the latest position that ends as many samples
   in a row as it needs, and what is pending is the exact trailing run, below its threshold.
   */
  lemma {:induction false} DebouncerIsItsHistory(c: Config, h: seq<Signal>)
    requires c.Usable()
    ensures PendingIsTrailing(c, h)
    ensures CurrentIsLatest(c, h, Debouncing(c, h).current)
  {
    if h != [] {
      DebouncerIsItsHistory(c, h[..|h| - 1]);
      SampleKeepsHistory(c, h[..|h| - 1], h[|h| - 1]);
      assert h[..|h| - 1] + [h[|h| - 1]] == h;
    }
  }

  /** Only one signal can be the latest to complete. */
  lemma LatestIsUnique(c: Config, h: seq<Signal>, k: int, v: Signal, current: Signal)
    requires c.Usable() && CurrentIsLatest(c, h, current)
    requires Completes(c, h, k, v) && forall j, u | k < j :: !Completes(c, h, j, u)
    ensures current == v
  {
    var i :| Completes(c, h, i, current) && forall j, u | i < j :: !Completes(c, h, j, u);
    assert i == k;
    assert h[k - 1] == v && h[k - 1] == current;
  }

  lemma PrefixCompletes(c: Config, h: seq<Signal>, n: nat, k: int, v: Signal)
    requires n <= |h| && k <= n
    ensures Completes(c, h[..n], k, v) <==> Completes(c, h, k, v)
  {
  }

  /** A run that is too short completes nothing. */
  lemma ShortRunCompletesNothing(c: Config, h: seq<Signal>, v: Signal, n: int, k: int)
    requires c.Usable() && TrailingRun(h, v, n) && !Completes(c, h, |h|, v) && Completes(c, h, k, v)
    ensures k <= |h| - n
  {
    assert n < |h| ==> h[|h| - n - 1] != v;
  }

  /** When something else was current, a signal becomes current exactly once its run is long enough. */
  lemma SwitchesOnceLongEnough(c: Config, h: seq<Signal>, v: Signal, n: int)
    requires c.Usable() && v != Unknown && TrailingRun(h, v, n)
    requires Debouncing(c, h[..|h| - n]).current != v
    ensures Debouncing(c, h).current == v <==> Completes(c, h, |h|, v)
  {
    var before, current := h[..|h| - n], Debouncing(c, h).current;
    DebouncerIsItsHistory(c, h);
    DebouncerIsItsHistory(c, before);
    hide Debouncing, PendingIsTrailing;
    if Completes(c, h, |h|, v) {
      assert forall j, u | |h| < j :: !Completes(c, h, j, u);
      LatestIsUnique(c, h, |h|, v, current);
    } else if current == v {
      var k :| Completes(c, h, k, v) && forall j, u | k < j :: !Completes(c, h, j, u);
      ShortRunCompletesNothing(c, h, v, n, k);
      PrefixCompletes(c, h, |before|, k, v);
      forall j, u | k < j
        ensures !Completes(c, before, j, u)
      {
        if j <= |before| {
          PrefixCompletes(c, h, |before|, j, u);
        }
      }
      LatestIsUnique(c, before, k, v, Debouncing(c, before).current);
    }
  }
}
