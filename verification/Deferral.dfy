// Prunes that wait for builds to end: internal/autopilot/state.go.
module Deferrals {
  import opened Catalog
  import opened Forecast

  const DEFER_LIMIT := 7200.0 // 2 hours
  const DEFER_GAP := 3600.0 // 1 hour
  const CRITICAL_FREE := 10 * GIB

  /** since is None when nothing is being put off. */
  datatype Deferral = Deferral(since: Option<real>, last: real)

  const CLEAR := Deferral(None, 0.0)

  datatype Tick = Tick(at: real, building: bool, free: int)

  /** One tick: the deferral after it, and whether the prune goes ahead. */
  function Next(d: Deferral, t: Tick): (r: (Deferral, bool))
    ensures r.1 ==> r.0 == CLEAR
  {
    if !t.building then (CLEAR, true)
    else
      var since := if d.since.None? || t.at - d.last > DEFER_GAP then t.at else d.since.value;
      if t.at - since >= DEFER_LIMIT && t.free < CRITICAL_FREE then (CLEAR, true)
      else (Deferral(Some(since), t.at), false)
  }

  function After(ticks: seq<Tick>, n: nat): Deferral
    requires n <= |ticks|
  {
    if n == 0 then CLEAR else Next(After(ticks, n - 1), ticks[n - 1]).0
  }

  predicate Ran(ticks: seq<Tick>, n: nat)
    requires n < |ticks|
  {
    Next(After(ticks, n), ticks[n]).1
  }

  /** Builds ran at every tick from m to n, put the prune off at each before n, and no
      two ticks were more than an hour apart. */
  ghost predicate Stretch(ticks: seq<Tick>, m: nat, n: nat) {
    && m <= n < |ticks|
    && (forall i | m <= i <= n :: ticks[i].building)
    && (forall i | m <= i < n :: !Ran(ticks, i))
    && (forall i | m < i <= n :: ticks[i].at - ticks[i - 1].at <= 3600.0)
  }

  /** A deferral remembers where the stretch it is in began. */
  lemma {:induction false} SinceIsStart(ticks: seq<Tick>, n: nat) returns (m: nat)
    requires n < |ticks| && !Ran(ticks, n)
    ensures Stretch(ticks, m, n) && After(ticks, n + 1) == Deferral(Some(ticks[m].at), ticks[n].at)
    ensures forall k: nat | Stretch(ticks, k, n) :: m <= k
  {
    var d := After(ticks, n);
    if n == 0 || Ran(ticks, n - 1) || ticks[n].at - ticks[n - 1].at > 3600.0 {
      m := n;
      if n > 0 && !Ran(ticks, n - 1) { var _ := SinceIsStart(ticks, n - 1); }
    } else {
      m := SinceIsStart(ticks, n - 1);
      forall k: nat | Stretch(ticks, k, n) ensures m <= k {
        if k < n { assert Stretch(ticks, k, n - 1); }
      }
    }
  }

  /** Where the stretch that ends at n began: the deferral before n says so. */
  lemma StretchBefore(ticks: seq<Tick>, n: nat) returns (m: nat)
    requires n < |ticks| && ticks[n].building
    ensures Stretch(ticks, m, n) && (forall k: nat | Stretch(ticks, k, n) :: m <= k)
    ensures Ran(ticks, n) <==> ticks[n].at - ticks[m].at >= 7200.0 && ticks[n].free < 10 * GIB
  {
    if n == 0 || Ran(ticks, n - 1) {
      m := n;
    } else {
      var before := SinceIsStart(ticks, n - 1);
      if ticks[n].at - ticks[n - 1].at > 3600.0 {
        m := n;
      } else {
        m := before;
        forall k: nat | Stretch(ticks, k, n) ensures m <= k {
          if k < n { assert Stretch(ticks, k, n - 1); }
        }
      }
    }
  }

  /** A prune goes ahead during a build only once builds have put it off for two hours
      without a break of more than an hour, with free space critical. */
  lemma RanWhileBuilding(ticks: seq<Tick>, n: nat) returns (m: nat)
    requires n < |ticks| && ticks[n].building && Ran(ticks, n)
    ensures Stretch(ticks, m, n) && ticks[n].at - ticks[m].at >= 7200.0 && ticks[n].free < 10 * GIB
  {
    m := StretchBefore(ticks, n);
  }

  ghost predicate Forward(ticks: seq<Tick>) {
    forall i, j | 0 <= i < j < |ticks| :: ticks[i].at <= ticks[j].at
  }

  /** With a clock that goes forward, it does go ahead then, whichever tick of the
      stretch one counts from. */
  lemma GoesAheadThen(ticks: seq<Tick>, m: nat, n: nat)
    requires Forward(ticks) && Stretch(ticks, m, n)
    requires ticks[n].at - ticks[m].at >= 7200.0 && ticks[n].free < 10 * GIB
    ensures Ran(ticks, n)
  {
    var start := StretchBefore(ticks, n);
    assert start <= m && ticks[start].at <= ticks[m].at;
  }

  /** Ticks more than an hour apart never override a build, however long it goes on. */
  lemma RareTicksWait(ticks: seq<Tick>, n: nat)
    requires n < |ticks| && ticks[n].building
    requires forall i | 0 < i <= n :: ticks[i].at - ticks[i - 1].at > 3600.0
    ensures !Ran(ticks, n)
  {
    var m := StretchBefore(ticks, n);
    assert n > 0 ==> ticks[n].at - ticks[n - 1].at > 3600.0;
  }
}
