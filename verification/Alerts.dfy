// Headroom alerts: internal/headroom/alerts.go. A condition that holds goes on holding
// until its own, wider line is passed.
module Alerts {
  import opened Forecast

  /** How much free space each band starts below, in falling order. */
  const BANDS := [50 * GIB, 25 * GIB, 10 * GIB, 5 * GIB]

  const LOW_DAYS := 3.0
  const REARM_DAYS := 4.0
  const SWAP_RISE := 4 * GIB
  const FREE_FALL := 5 * GIB
  const ACUTE_WINDOW := 1920.0 // 32 minutes

  function Max(a: int, b: int): int { if a < b then b else a }

  function Rearm(band: int): int { band + Max(band / 10, GIB) }

  // ---- moves within half an hour ----

  datatype Moves = Moves(rise: int, drop: int)

  predicate Near(s: seq<Sample>, i: nat)
    requires i < |s|
  {
    s[|s| - 1].at - s[i].at <= ACUTE_WINDOW
  }

  function Joined(m: Moves, s: seq<Sample>, i: nat): Moves
    requires i < |s|
  {
    Moves(Max(m.rise, s[|s| - 1].swapUsed - s[i].swapUsed), Max(m.drop, s[i].free - s[|s| - 1].free))
  }

  /** The moves over the k samples before, back to the first that is too old. */
  function MovesBack(s: seq<Sample>, k: nat, m: Moves): Moves
    requires k < |s|
  {
    if k == 0 || !Near(s, k - 1) then m else MovesBack(s, k - 1, Joined(m, s, k - 1))
  }

  function AcuteMoves(s: seq<Sample>): Moves
    requires s != []
  {
    MovesBack(s, |s| - 1, Moves(0, 0))
  }

  method FindMoves(s: seq<Sample>) returns (m: Moves)
    requires s != []
    ensures m == AcuteMoves(s)
  {
    m := Moves(0, 0);
    var i := |s| - 1;
    while i > 0 && Near(s, i - 1)
      invariant 0 <= i < |s| && MovesBack(s, i, m) == AcuteMoves(s)
    {
      i := i - 1;
      m := Joined(m, s, i);
    }
  }

  /** The largest rise and fall over the samples near the newest without a break: none
      moved further, and some moved that far, or there was no such move. */
  lemma {:induction false} MovesAreLargest(s: seq<Sample>, k: nat, m: Moves) returns (from: nat)
    requires k < |s|
    ensures from <= k && (forall i | from <= i < k :: Near(s, i)) && (from > 0 ==> !Near(s, from - 1))
    ensures var r := MovesBack(s, k, m);
      && r.rise >= m.rise && r.drop >= m.drop
      && (forall i | from <= i < k ::
        s[|s| - 1].swapUsed - s[i].swapUsed <= r.rise && s[i].free - s[|s| - 1].free <= r.drop)
      && (r.rise == m.rise || exists i :: from <= i < k && r.rise == s[|s| - 1].swapUsed - s[i].swapUsed)
      && (r.drop == m.drop || exists i :: from <= i < k && r.drop == s[i].free - s[|s| - 1].free)
  {
    if k == 0 || !Near(s, k - 1) {
      from := k;
    } else {
      from := MovesAreLargest(s, k - 1, Joined(m, s, k - 1));
      var r := MovesBack(s, k, m);
      if r.rise != m.rise && r.rise == Joined(m, s, k - 1).rise {
        assert r.rise == s[|s| - 1].swapUsed - s[k - 1].swapUsed;
      }
      if r.drop != m.drop && r.drop == Joined(m, s, k - 1).drop {
        assert r.drop == s[k - 1].free - s[|s| - 1].free;
      }
    }
  }

  // ---- conditions ----

  datatype Condition = Below(i: nat) | LowDays | SwapUp | FreeFall {
    predicate Valid() { Below? ==> i < |BANDS| }
  }

  ghost predicate Trips(c: Condition, s: seq<Sample>)
    requires c.Valid() && s != []
  {
    match c
    case Below(i) => s[|s| - 1].free < BANDS[i]
    case LowDays => Foretold(s).Days? && Foretold(s).days < LOW_DAYS
    case SwapUp => AcuteMoves(s).rise >= SWAP_RISE
    case FreeFall => AcuteMoves(s).drop > FREE_FALL
  }

  ghost predicate Clears(c: Condition, s: seq<Sample>)
    requires c.Valid() && s != []
  {
    match c
    case Below(i) => s[|s| - 1].free >= Rearm(BANDS[i])
    case LowDays => !Foretold(s).Days? || Foretold(s).days >= REARM_DAYS
    case SwapUp => AcuteMoves(s).rise < SWAP_RISE / 2
    case FreeFall => AcuteMoves(s).drop < FREE_FALL / 2
  }

  /** Sample i is no older than 32 minutes before the newest, nor is any between. */
  ghost predicate Recent(s: seq<Sample>, i: nat) {
    i < |s| - 1 && forall j | i <= j < |s| - 1 :: s[|s| - 1].at - s[j].at <= 32.0 * 60.0
  }

  /** When a band trips and clears: below it, and a tenth or a GiB above it, whichever is more. */
  lemma BandLines(s: seq<Sample>)
    requires s != []
    ensures var free, gib := s[|s| - 1].free, 0x4000_0000;
      && (Trips(Below(0), s) <==> free < 50 * gib) && (Clears(Below(0), s) <==> free >= 55 * gib)
      && (Trips(Below(1), s) <==> free < 25 * gib) && (Clears(Below(1), s) <==> 2 * free >= 55 * gib)
      && (Trips(Below(2), s) <==> free < 10 * gib) && (Clears(Below(2), s) <==> free >= 11 * gib)
      && (Trips(Below(3), s) <==> free < 5 * gib) && (Clears(Below(3), s) <==> free >= 6 * gib)
    ensures |BANDS| == 4
  {
  }

  /** When the others do: by what a recent sample had, and by how few days are foretold. */
  lemma MoveLines(s: seq<Sample>)
    requires s != []
    ensures var last, gib := s[|s| - 1], 0x4000_0000;
      && (Trips(SwapUp, s) <==> exists i: nat :: Recent(s, i) && last.swapUsed - s[i].swapUsed >= 4 * gib)
      && (Clears(SwapUp, s) <==> forall i: nat | Recent(s, i) :: last.swapUsed - s[i].swapUsed < 2 * gib)
      && (Trips(FreeFall, s) <==> exists i: nat :: Recent(s, i) && s[i].free - last.free > 5 * gib)
      && (Clears(FreeFall, s) <==> forall i: nat | Recent(s, i) :: 2 * (s[i].free - last.free) < 5 * gib)
    ensures Trips(LowDays, s) <==> Foretold(s).Days? && Foretold(s).days < 3.0
    ensures Clears(LowDays, s) <==> (Foretold(s).Days? ==> Foretold(s).days >= 4.0)
  {
    var n := |s| - 1;
    var from := MovesAreLargest(s, n, Moves(0, 0));
    forall i: nat ensures Recent(s, i) <==> from <= i < n { RecentFrom(s, from, i); }
    var r := AcuteMoves(s);
    if r.rise != 0 {
      var i :| from <= i < n && r.rise == s[n].swapUsed - s[i].swapUsed;
      assert Recent(s, i);
    }
    if r.drop != 0 {
      var i :| from <= i < n && r.drop == s[i].free - s[n].free;
      assert Recent(s, i);
    }
  }

  lemma RecentFrom(s: seq<Sample>, from: nat, i: nat)
    requires s != [] && from < |s| && (forall j | from <= j < |s| - 1 :: Near(s, j))
      && (from > 0 ==> !Near(s, from - 1))
    ensures Recent(s, i) <==> from <= i < |s| - 1
  {
    forall j: nat | j < |s| ensures Near(s, j) <==> s[|s| - 1].at - s[j].at <= 32.0 * 60.0 {}
  }

  /** Whether a condition holds after a history, sample by sample. */
  ghost predicate Holds(c: Condition, s: seq<Sample>)
    requires c.Valid()
  {
    s != [] && (Trips(c, s) || (!Clears(c, s) && Holds(c, s[..|s| - 1])))
  }

  // ---- the state object ----

  class AlertState {
    var bands: array<bool>
    var days: bool
    var swap: bool
    var fall: bool

    ghost predicate Valid()
      reads this
    {
      bands.Length == |BANDS|
    }

    /** The conditions that hold after a history. */
    ghost predicate Is(s: seq<Sample>)
      requires Valid()
      reads this, bands
    {
      && (forall i | 0 <= i < |BANDS| :: bands[i] == Holds(Below(i), s))
      && days == Holds(LowDays, s) && swap == Holds(SwapUp, s) && fall == Holds(FreeFall, s)
    }

    constructor ()
      ensures Valid() && fresh(bands) && Is([])
    {
      bands := new bool[|BANDS|](i => false);
      days, swap, fall := false, false, false;
    }

    /** Each step changes its own fields: the bands, then the rest. */
    method Step(prefix: seq<Sample>)
      requires Valid() && prefix != [] && Is(prefix[..|prefix| - 1])
      modifies this, bands
      ensures Valid() && bands == old(bands) && Is(prefix)
    {
      StepBands(prefix);
      StepDays(prefix);
      StepMoves(prefix);
    }

    method StepBands(prefix: seq<Sample>)
      requires Valid() && prefix != []
      requires forall i | 0 <= i < |BANDS| :: bands[i] == Holds(Below(i), prefix[..|prefix| - 1])
      modifies bands
      ensures forall i | 0 <= i < |BANDS| :: bands[i] == Holds(Below(i), prefix)
    {
      var free := prefix[|prefix| - 1].free;
      ghost var before := prefix[..|prefix| - 1];
      for i := 0 to |BANDS|
        invariant forall k | 0 <= k < |BANDS| :: bands[k] == Holds(Below(k), if k < i then prefix else before)
      {
        if free < BANDS[i] {
          bands[i] := true;
        } else if free >= Rearm(BANDS[i]) {
          bands[i] := false;
        }
      }
    }

    method StepMoves(prefix: seq<Sample>)
      requires prefix != [] && swap == Holds(SwapUp, prefix[..|prefix| - 1])
        && fall == Holds(FreeFall, prefix[..|prefix| - 1])
      modifies this`swap, this`fall
      ensures swap == Holds(SwapUp, prefix) && fall == Holds(FreeFall, prefix)
    {
      var m := FindMoves(prefix);
      if m.rise >= SWAP_RISE {
        swap := true;
      } else if m.rise < SWAP_RISE / 2 {
        swap := false;
      }
      if m.drop > FREE_FALL {
        fall := true;
      } else if m.drop < FREE_FALL / 2 {
        fall := false;
      }
    }

    method StepDays(prefix: seq<Sample>)
      requires prefix != [] && days == Holds(LowDays, prefix[..|prefix| - 1])
      modifies this`days
      ensures days == Holds(LowDays, prefix)
    {
      var o := ForecastOrWhy(prefix);
      if o.Days? && o.days < LOW_DAYS {
        days := true;
      } else if !o.Days? || o.days >= REARM_DAYS {
        days := false;
      }
    }
  }

  method Replay(s: seq<Sample>) returns (st: AlertState)
    ensures fresh(st) && fresh(st.bands) && st.Valid() && st.Is(s)
  {
    st := new AlertState();
    for i := 0 to |s|
      invariant fresh(st) && fresh(st.bands) && st.Valid() && st.Is(s[..i])
    {
      assert s[..i + 1][..i] == s[..i];
      st.Step(s[..i + 1]);
    }
    assert s[..|s|] == s;
  }

  // ---- what is raised ----

  ghost predicate Newly(c: Condition, prev: seq<Sample>, cur: seq<Sample>)
    requires c.Valid()
  {
    Holds(c, cur) && !Holds(c, prev)
  }

  /** The lowest band newly crossed, or none. */
  ghost predicate LowestNew(prev: seq<Sample>, cur: seq<Sample>, below: seq<Condition>) {
    if exists i | 0 <= i < |BANDS| :: Newly(Below(i), prev, cur) then
      |below| == 1 && below[0].Below? && below[0].i < |BANDS| && Newly(below[0], prev, cur) &&
      forall j | below[0].i < j < |BANDS| :: !Newly(Below(j), prev, cur)
    else below == []
  }

  ghost function IfNew(c: Condition, prev: seq<Sample>, cur: seq<Sample>): seq<Condition>
    requires c.Valid()
  {
    if Newly(c, prev, cur) then [c] else []
  }

  /** The alerts of one tick, each named by its condition, in the order they are given. */
  method Alerts(prev: seq<Sample>, cur: seq<Sample>) returns (out: seq<Condition>, ghost below: seq<Condition>)
    ensures cur == [] ==> out == []
    ensures cur != [] ==> LowestNew(prev, cur, below)
    ensures cur != [] ==>
      out == IfNew(FreeFall, prev, cur) + IfNew(SwapUp, prev, cur) + below + IfNew(LowDays, prev, cur)
  {
    out, below := [], [];
    if cur == [] {
      return;
    }
    var was := Replay(prev);
    var now := Replay(cur);
    var fell := if now.fall && !was.fall then [FreeFall] else [];
    var rose := if now.swap && !was.swap then [SwapUp] else [];
    var i := |BANDS|;
    var lines: seq<Condition> := [];
    while i > 0 && lines == []
      invariant 0 <= i <= |BANDS|
      invariant forall j | i <= j < |BANDS| && lines == [] :: !Newly(Below(j), prev, cur)
      invariant lines != [] ==> i < |BANDS| && lines == [Below(i)] && Newly(Below(i), prev, cur)
      invariant forall j | i < j < |BANDS| :: !Newly(Below(j), prev, cur)
      decreases i, if lines == [] then 1 else 0
    {
      i := i - 1;
      if now.bands[i] && !was.bands[i] {
        lines := [Below(i)];
      }
    }
    var low := if now.days && !was.days then [LowDays] else [];
    below := lines;
    out := fell + rose + lines + low;
  }

  /** Where an alert stands among those of one tick. */
  function Place(c: Condition): nat {
    match c
    case FreeFall => 0
    case SwapUp => 1
    case Below(_) => 2
    case LowDays => 3
  }

  /** An alert is raised exactly when its condition holds now and did not before, a band's
      only when no lower band's is; each once, in this order. */
  lemma {:induction false} RaisedExactly(prev: seq<Sample>, cur: seq<Sample>, out: seq<Condition>,
                                         below: seq<Condition>)
    requires LowestNew(prev, cur, below)
    requires out == IfNew(FreeFall, prev, cur) + IfNew(SwapUp, prev, cur) + below + IfNew(LowDays, prev, cur)
    ensures FreeFall in out <==> Holds(FreeFall, cur) && !Holds(FreeFall, prev)
    ensures SwapUp in out <==> Holds(SwapUp, cur) && !Holds(SwapUp, prev)
    ensures LowDays in out <==> Holds(LowDays, cur) && !Holds(LowDays, prev)
    ensures forall i: nat | i < |BANDS| :: Below(i) in out <==> IsLowest(prev, cur, i)
    ensures forall i, j | 0 <= i < j < |out| :: Place(out[i]) < Place(out[j])
  {
    forall i: nat | i < |BANDS| ensures Below(i) in below <==> IsLowest(prev, cur, i) {
      BandRaised(prev, cur, below, i);
    }
    AllRaised(IfNew(FreeFall, prev, cur), IfNew(SwapUp, prev, cur), below, IfNew(LowDays, prev, cur), out);
  }

  /** The band is newly crossed, and no lower one is. */
  ghost predicate IsLowest(prev: seq<Sample>, cur: seq<Sample>, i: nat)
    requires i < |BANDS|
  {
    && Holds(Below(i), cur) && !Holds(Below(i), prev)
    && forall j | i < j < |BANDS| :: !Holds(Below(j), cur) || Holds(Below(j), prev)
  }

  lemma {:induction false} BandRaised(prev: seq<Sample>, cur: seq<Sample>, below: seq<Condition>, i: nat)
    requires LowestNew(prev, cur, below) && i < |BANDS|
    ensures Below(i) in below <==> IsLowest(prev, cur, i)
    ensures |below| <= 1 && forall c <- below :: c.Below?
  {
    if exists k | 0 <= k < |BANDS| :: Newly(Below(k), prev, cur) {
      var k := below[0].i;
      assert below == [Below(k)] && IsLowest(prev, cur, k);
      if i < k { assert Newly(Below(k), prev, cur); }
      if k < i { assert !Newly(Below(i), prev, cur); }
    } else {
      assert !Newly(Below(i), prev, cur);
    }
  }

  lemma AllRaised(fell: seq<Condition>, rose: seq<Condition>, below: seq<Condition>, low: seq<Condition>,
                  out: seq<Condition>)
    requires fell == [FreeFall] || fell == []
    requires rose == [SwapUp] || rose == []
    requires low == [LowDays] || low == []
    requires |below| <= 1 && (forall c <- below :: c.Below?) && out == fell + rose + below + low
    ensures FreeFall in out <==> fell != []
    ensures SwapUp in out <==> rose != []
    ensures LowDays in out <==> low != []
    ensures forall i: nat :: Below(i) in out <==> Below(i) in below
    ensures forall i, j | 0 <= i < j < |out| :: Place(out[i]) < Place(out[j])
  {
  }

  // ---- hysteresis ----

  lemma Exclusive(c: Condition, s: seq<Sample>)
    requires c.Valid() && s != []
    ensures !(Trips(c, s) && Clears(c, s))
  {
  }

  ghost predicate TripsAt(c: Condition, s: seq<Sample>, k: nat)
    requires c.Valid()
  {
    k < |s| && Trips(c, s[..k + 1])
  }

  ghost predicate ClearsAt(c: Condition, s: seq<Sample>, k: nat)
    requires c.Valid()
  {
    k < |s| && Clears(c, s[..k + 1])
  }

  /** The condition tripped at sample k, and has not cleared since. */
  ghost predicate TrippedSince(c: Condition, s: seq<Sample>, k: nat)
    requires c.Valid()
  {
    TripsAt(c, s, k) && forall j | k < j < |s| :: !ClearsAt(c, s, j)
  }

  lemma EarlierAt(c: Condition, s: seq<Sample>, n: nat, k: nat)
    requires c.Valid() && k < n <= |s|
    ensures TripsAt(c, s[..n], k) == TripsAt(c, s, k) && ClearsAt(c, s[..n], k) == ClearsAt(c, s, k)
  {
    assert s[..n][..k + 1] == s[..k + 1];
  }

  /** A condition holds exactly when it tripped and has not cleared since. */
  lemma {:induction false} HoldsExactly(c: Condition, s: seq<Sample>)
    requires c.Valid()
    ensures Holds(c, s) <==> exists k: nat :: TrippedSince(c, s, k)
  {
    if s != [] {
      var n := |s| - 1;
      assert s[..n + 1] == s;
      Exclusive(c, s);
      HoldsExactly(c, s[..n]);
      forall k: nat | k < n
        ensures TripsAt(c, s[..n], k) == TripsAt(c, s, k) && ClearsAt(c, s[..n], k) == ClearsAt(c, s, k)
      {
        EarlierAt(c, s, n, k);
      }
      LastDecides(c, s, n);
    }
  }

  lemma LastDecides(c: Condition, s: seq<Sample>, n: nat)
    requires c.Valid() && s != [] && n == |s| - 1 && !(TripsAt(c, s, n) && ClearsAt(c, s, n))
    requires forall k: nat | k < n ::
      TripsAt(c, s[..n], k) == TripsAt(c, s, k) && ClearsAt(c, s[..n], k) == ClearsAt(c, s, k)
    ensures (exists k: nat :: TrippedSince(c, s, k)) <==>
      TripsAt(c, s, n) || (!ClearsAt(c, s, n) && exists k: nat :: TrippedSince(c, s[..n], k))
  {
    if TripsAt(c, s, n) {
      assert TrippedSince(c, s, n);
    } else {
      if exists k: nat :: TrippedSince(c, s, k) {
        var k: nat :| TrippedSince(c, s, k);
        assert TrippedSince(c, s[..n], k);
      }
      if !ClearsAt(c, s, n) && exists k: nat :: TrippedSince(c, s[..n], k) {
        var k: nat :| TrippedSince(c, s[..n], k);
        assert TrippedSince(c, s, k);
      }
    }
  }

  /** Between two alerts of one condition it cleared: for a band, some sample in
      between was at or above its rearm line. */
  lemma ClearedBetween(c: Condition, s: seq<Sample>, m: nat, n: nat) returns (j: nat)
    requires c.Valid() && m < n < |s|
    requires Newly(c, s[..m], s[..m + 1]) && Newly(c, s[..n], s[..n + 1])
    ensures m < j < n && ClearsAt(c, s, j)
    ensures c.Below? ==> s[j].free >= Rearm(BANDS[c.i])
  {
    assert s[..m + 1][..m] == s[..m];
    assert TripsAt(c, s, m);
    EarlierAt(c, s, n, m);
    HoldsExactly(c, s[..n]);
    assert !TrippedSince(c, s[..n], m);
    j :| m < j < n && ClearsAt(c, s[..n], j);
    EarlierAt(c, s, n, j);
  }

  /** A tripped band means every higher band is tripped. */
  lemma {:induction false} BandsNest(s: seq<Sample>, low: nat, high: nat)
    requires high <= low < |BANDS| && Holds(Below(low), s)
    ensures Holds(Below(high), s)
  {
    BandsFall(high, low);
    if !Trips(Below(low), s) { BandsNest(s[..|s| - 1], low, high); }
  }

  lemma BandsFall(high: nat, low: nat)
    requires high <= low < |BANDS|
    ensures BANDS[low] <= BANDS[high] && Rearm(BANDS[low]) <= Rearm(BANDS[high])
  {
  }

  /** One tick raises at most one free-space alert, whatever its histories. */
  lemma OneBandATick(prev: seq<Sample>, cur: seq<Sample>, out: seq<Condition>, below: seq<Condition>, i: nat, j: nat)
    requires LowestNew(prev, cur, below)
    requires out == IfNew(FreeFall, prev, cur) + IfNew(SwapUp, prev, cur) + below + IfNew(LowDays, prev, cur)
    requires i < |out| && j < |out| && out[i].Below? && out[j].Below?
    ensures i == j && below == [out[i]]
  {
    assert |IfNew(FreeFall, prev, cur)| <= 1 && |IfNew(SwapUp, prev, cur)| <= 1;
  }
}
