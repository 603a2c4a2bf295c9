/** The trimmed timestamp lists of an IP profile, and what they remember of the full
    event history. */
module TimeWindow {

  /** The timestamps within window seconds of now, in order. */
  function Within(ts: seq<real>, now: real, window: real): seq<real> {
    if ts == [] then []
    else Within(ts[..|ts| - 1], now, window)
         + if now - ts[|ts| - 1] <= window then [ts[|ts| - 1]] else []
  }

  /** trimTimestamps. */
  method TrimTimestamps(ts: seq<real>, now: real, window: real) returns (kept: seq<real>)
    ensures kept == Within(ts, now, window)
  {
    kept := [];
    for i := 0 to |ts|
      invariant kept == Within(ts[..i], now, window)
    {
      assert ts[..i + 1][..i] == ts[..i];
      if now - ts[i] <= window {
        kept := kept + [ts[i]];
      }
    }
    assert ts[..|ts|] == ts;
  }

  /** slidingWindowCount. */
  method SlidingWindowCount(ts: seq<real>, window: real, now: real) returns (count: nat)
    ensures count == |Within(ts, now, window)|
  {
    count := 0;
    for i := 0 to |ts|
      invariant count == |Within(ts[..i], now, window)|
    {
      assert ts[..i + 1][..i] == ts[..i];
      if now - ts[i] <= window {
        count := count + 1;
      }
    }
    assert ts[..|ts|] == ts;
  }

  /** The list Update maintains: every event appends its time and trims against it. */
  function Recorded(history: seq<real>, window: real): seq<real> {
    if history == [] then []
    else var now := history[|history| - 1];
         Within(Recorded(history[..|history| - 1], window) + [now], now, window)
  }

  // ---------- what survives, for any arrival order ----------

  /** The i-th event is still on the list: no event since was more than window later. */
  predicate Survives(history: seq<real>, window: real, i: nat)
    requires i < |history|
  {
    forall j :: i <= j < |history| ==> history[j] - history[i] <= window
  }

  /** The surviving ones among the first n events. */
  function Survivors(history: seq<real>, window: real, n: nat): seq<real>
    requires n <= |history|
  {
    if n == 0 then []
    else Survivors(history, window, n - 1)
         + if Survives(history, window, n - 1) then [history[n - 1]] else []
  }

  lemma {:induction false} WithinAppend(xs: seq<real>, ys: seq<real>, now: real, window: real)
    ensures Within(xs + ys, now, window) == Within(xs, now, window) + Within(ys, now, window)
  {
    if ys == [] {
      assert xs + ys == xs;
    } else {
      var n := |xs + ys|;
      assert (xs + ys)[..n - 1] == xs + ys[..|ys| - 1];
      WithinAppend(xs, ys[..|ys| - 1], now, window);
    }
  }

  lemma {:induction false} SurvivorsStep(history: seq<real>, window: real, n: nat)
    requires history != [] && n < |history|
    ensures var last := history[|history| - 1];
            Within(Survivors(history[..|history| - 1], window, n), last, window) == Survivors(history, window, n)
  {
    if n > 0 {
      var before := history[..|history| - 1];
      var last := history[|history| - 1];
      SurvivorsStep(history, window, n - 1);
      assert Survives(history, window, n - 1) <==> Survives(before, window, n - 1) && last - history[n - 1] <= window by {
        assert forall j :: n - 1 <= j < |before| ==> before[j] == history[j];
      }
      var tail := if Survives(before, window, n - 1) then [before[n - 1]] else [];
      WithinAppend(Survivors(before, window, n - 1), tail, last, window);
    }
  }

  /** The maintained list is exactly the surviving events, whatever order the
      timestamps arrived in. */
  lemma {:induction false} RecordedIsSurvivors(history: seq<real>, window: real)
    ensures Recorded(history, window) == Survivors(history, window, |history|)
  {
    if history != [] {
      var n := |history| - 1;
      var now := history[n];
      RecordedIsSurvivors(history[..n], window);
      WithinAppend(Recorded(history[..n], window), [now], now, window);
      assert Within([now], now, window) == if 0.0 <= window then [now] else [] by {
        assert [now][..0] == [];
      }
      SurvivorsStep(history, window, n);
      assert Survives(history, window, n) <==> 0.0 <= window;
    }
  }

  // ---------- timestamps that never go back ----------

  predicate NonDecreasing(ts: seq<real>) {
    forall i, j :: 0 <= i <= j < |ts| ==> ts[i] <= ts[j]
  }

  lemma {:induction false} SurvivorsOfSorted(history: seq<real>, window: real, n: nat)
    requires NonDecreasing(history) && 0 < |history| && n <= |history|
    ensures Survivors(history, window, n) == Within(history[..n], history[|history| - 1], window)
  {
    if n > 0 {
      SurvivorsOfSorted(history, window, n - 1);
      assert history[..n][..n - 1] == history[..n - 1];
      var last := |history| - 1;
      assert Survives(history, window, n - 1) <==> history[last] - history[n - 1] <= window;
    }
  }

  /** With non-decreasing timestamps the list is the window filter of the whole history. */
  lemma RecordedIsWindow(history: seq<real>, window: real)
    requires NonDecreasing(history) && history != []
    ensures Recorded(history, window) == Within(history, history[|history| - 1], window)
  {
    RecordedIsSurvivors(history, window);
    SurvivorsOfSorted(history, window, |history|);
    assert history[..|history|] == history;
  }

  lemma {:induction false} WithinWithin(ts: seq<real>, early: real, w1: real, now: real, w2: real)
    requires now - w2 >= early - w1
    ensures Within(Within(ts, early, w1), now, w2) == Within(ts, now, w2)
  {
    if ts != [] {
      var n := |ts| - 1;
      WithinWithin(ts[..n], early, w1, now, w2);
      var tail := if early - ts[n] <= w1 then [ts[n]] else [];
      WithinAppend(Within(ts[..n], early, w1), tail, now, w2);
      assert tail != [] ==> Within(tail, now, w2) == if now - ts[n] <= w2 then [ts[n]] else [] by {
        assert [ts[n]][..0] == [];
      }
    }
  }

  /** A later count over a window no longer than the list's own sees the full history. */
  lemma ShortCountsAreExact(history: seq<real>, keep: real, window: real, now: real)
    requires NonDecreasing(history) && history != []
    requires window <= keep && history[|history| - 1] <= now
    ensures Within(Recorded(history, keep), now, window) == Within(history, now, window)
  {
    RecordedIsWindow(history, keep);
    WithinWithin(history, history[|history| - 1], keep, now, window);
  }

  // ---------- the five-minute counts of ScoreAccountAbuse ----------

  const PATH_WINDOW := 60.0
  const ABUSE_WINDOW := 300.0

  /** Inside five minutes of now and also inside one minute of the path's last event. */
  function Remembered(ts: seq<real>, last: real, now: real): seq<real> {
    Within(Within(ts, last, PATH_WINDOW), now, ABUSE_WINDOW)
  }

  /** Some request of the last five minutes has already been trimmed away. */
  predicate Forgotten(history: seq<real>, now: real) {
    exists i :: 0 <= i < |history| && now - history[i] <= ABUSE_WINDOW
                && history[|history| - 1] - history[i] > PATH_WINDOW
  }

  predicate NothingLost(ts: seq<real>, a: real, wa: real, now: real, w: real) {
    forall i :: 0 <= i < |ts| && now - ts[i] <= w ==> a - ts[i] <= wa
  }

  lemma {:induction false} WithinLength(ts: seq<real>, a: real, wa: real, now: real, w: real)
    ensures |Within(Within(ts, a, wa), now, w)| <= |Within(ts, now, w)|
    ensures |Within(Within(ts, a, wa), now, w)| == |Within(ts, now, w)| <==> NothingLost(ts, a, wa, now, w)
  {
    if ts != [] {
      var n := |ts| - 1;
      WithinLength(ts[..n], a, wa, now, w);
      var tail := if a - ts[n] <= wa then [ts[n]] else [];
      WithinAppend(Within(ts[..n], a, wa), tail, now, w);
      assert Within(tail, now, w) == if a - ts[n] <= wa && now - ts[n] <= w then [ts[n]] else [] by {
        assert [ts[n]][..0] == [];
      }
      assert NothingLost(ts, a, wa, now, w)
             <==> NothingLost(ts[..n], a, wa, now, w) && (now - ts[n] <= w ==> a - ts[n] <= wa) by {
        assert forall i :: 0 <= i < n ==> ts[..n][i] == ts[i];
      }
    }
  }

  /** The "/5min" count is the true five-minute count exactly when nothing was forgotten;
      otherwise it is too small. */
  lemma AbuseCountExactness(history: seq<real>, now: real)
    requires NonDecreasing(history) && history != []
    ensures Within(Recorded(history, PATH_WINDOW), now, ABUSE_WINDOW)
            == Remembered(history, history[|history| - 1], now)
    ensures |Within(Recorded(history, PATH_WINDOW), now, ABUSE_WINDOW)| <= |Within(history, now, ABUSE_WINDOW)|
    ensures |Within(Recorded(history, PATH_WINDOW), now, ABUSE_WINDOW)| == |Within(history, now, ABUSE_WINDOW)|
            <==> !Forgotten(history, now)
  {
    RecordedIsWindow(history, PATH_WINDOW);
    WithinLength(history, history[|history| - 1], PATH_WINDOW, now, ABUSE_WINDOW);
  }

  /** Three registrations spread over two minutes: two of them are no longer counted. */
  lemma AbuseCountCanForget()
    ensures Forgotten([0.0, 30.0, 120.0], 121.0)
    ensures |Within(Recorded([0.0, 30.0, 120.0], PATH_WINDOW), 121.0, ABUSE_WINDOW)|
            < |Within([0.0, 30.0, 120.0], 121.0, ABUSE_WINDOW)|
  {
    var h := [0.0, 30.0, 120.0];
    assert h[0] == 0.0;
    AbuseCountExactness(h, 121.0);
  }
}
