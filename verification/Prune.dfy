// Pruning the Go build cache by age: internal/engine/prune.go.
module Prune {
  import opened Catalog

  /** A cache entry: its modification time in whole seconds since 1970, and its size. */
  datatype CacheEntry = CacheEntry(mtime: int, bytes: nat)

  datatype Usage = Usage(files: nat, bytes: nat)

  const NONE := Usage(0, 0)

  function Plus(a: Usage, b: Usage): Usage { Usage(a.files + b.files, a.bytes + b.bytes) }

  // ---- hours ----

  /** Go's division and remainder, which truncate toward zero. */
  function Quo(a: int, b: int): int
    requires b > 0
  {
    if a >= 0 then a / b else -((-a) / b)
  }

  function Rem(a: int, b: int): int
    requires b > 0
  {
    a - Quo(a, b) * b
  }

  /** The hour a time falls in, times before 1970 included. */
  function HourBucket(sec: int): (h: int)
    ensures h * 3600 <= sec < (h + 1) * 3600
  {
    Quo(sec, 3600) - if Rem(sec, 3600) < 0 then 1 else 0
  }

  // ---- the histogram ----

  /** Which entries are counted. */
  datatype Pick = Any | ByTime(at: int) | InHour(hour: int) | InHours(hours: set<int>) {
    predicate Takes(e: CacheEntry) {
      match this
      case Any => true
      case ByTime(at) => e.mtime <= at
      case InHour(hour) => HourBucket(e.mtime) == hour
      case InHours(hours) => HourBucket(e.mtime) in hours
    }
  }

  /** What the entries picked hold together. */
  function Sum(es: seq<CacheEntry>, pick: Pick): Usage {
    if es == [] then NONE
    else
      var rest, e := Sum(es[..|es| - 1], pick), es[|es| - 1];
      if pick.Takes(e) then Usage(rest.files + 1, rest.bytes + e.bytes) else rest
  }

  /** What the entries up to a time hold together. */
  function AtOrBefore(es: seq<CacheEntry>, at: int): Usage { Sum(es, ByTime(at)) }

  function All(es: seq<CacheEntry>): Usage { Sum(es, Any) }

  lemma {:induction false} SameSum(es: seq<CacheEntry>, p: Pick, q: Pick)
    requires forall i | 0 <= i < |es| :: p.Takes(es[i]) == q.Takes(es[i])
    ensures Sum(es, p) == Sum(es, q)
  {
    if es != [] { SameSum(es[..|es| - 1], p, q); }
  }

  lemma {:induction false} AddSum(es: seq<CacheEntry>, p: Pick, q: Pick, both: Pick)
    requires forall e <- es :: both.Takes(e) == (p.Takes(e) || q.Takes(e)) && !(p.Takes(e) && q.Takes(e))
    ensures Sum(es, both).files == Sum(es, p).files + Sum(es, q).files
      && Sum(es, both).bytes == Sum(es, p).bytes + Sum(es, q).bytes
  {
    if es != [] { AddSum(es[..|es| - 1], p, q, both); }
  }

  lemma {:induction false} NoSum(es: seq<CacheEntry>, p: Pick)
    requires forall i | 0 <= i < |es| :: !p.Takes(es[i])
    ensures Sum(es, p) == NONE
  {
    if es != [] { NoSum(es[..|es| - 1], p); }
  }

  lemma SumNext(es: seq<CacheEntry>, e: CacheEntry, pick: Pick)
    ensures Sum(es + [e], pick) ==
      if pick.Takes(e) then Usage(Sum(es, pick).files + 1, Sum(es, pick).bytes + e.bytes) else Sum(es, pick)
  {
    assert (es + [e])[..|es|] == es;
  }

  /** One bucket for each hour some entry falls in. */
  ghost predicate IsHist(es: seq<CacheEntry>, hist: map<int, Usage>) {
    && (forall i | 0 <= i < |es| :: HourBucket(es[i].mtime) in hist)
    && (forall k <- hist :: hist[k] == Sum(es, InHour(k)) && hist[k].files > 0)
  }

  lemma HistNext(es: seq<CacheEntry>, e: CacheEntry, h: int, hist: map<int, Usage>)
    requires IsHist(es, hist) && h == HourBucket(e.mtime)
    ensures var b := if h in hist then hist[h] else NONE;
      IsHist(es + [e], hist[h := Usage(b.files + 1, b.bytes + e.bytes)])
  {
    if h !in hist { NoSum(es, InHour(h)); }
    var b := if h in hist then hist[h] else NONE;
    var next := hist[h := Usage(b.files + 1, b.bytes + e.bytes)];
    forall k <- next ensures next[k] == Sum(es + [e], InHour(k)) && next[k].files > 0 {
      SumNext(es, e, InHour(k));
    }
  }

  /** surveyCache's buckets, once the entries are read. */
  method SurveyCache(es: seq<CacheEntry>) returns (hist: map<int, Usage>)
    ensures IsHist(es, hist)
  {
    hist := map[];
    for i := 0 to |es|
      invariant IsHist(es[..i], hist)
    {
      var k := HourBucket(es[i].mtime);
      HistNext(es[..i], es[i], k, hist);
      assert es[..i + 1] == es[..i] + [es[i]];
      var b := if k in hist then hist[k] else NONE;
      hist := hist[k := Usage(b.files + 1, b.bytes + es[i].bytes)];
    }
    assert es[..|es|] == es;
  }

  lemma HoursAdd(es: seq<CacheEntry>, hours: set<int>, k: int)
    requires k !in hours
    ensures Sum(es, InHours(hours + {k})) == Plus(Sum(es, InHours(hours)), Sum(es, InHour(k)))
  {
    AddSum(es, InHours(hours), InHour(k), InHours(hours + {k}));
  }

  method SomeOf<T(==)>(s: set<T>) returns (x: T)
    requires s != {}
    ensures x in s
  {
    x :| x in s;
  }

  /** The buckets, added up in any order. */
  method TotalOf(hist: map<int, Usage>, ghost es: seq<CacheEntry>) returns (u: Usage)
    requires IsHist(es, hist)
    ensures u == All(es)
  {
    u := NONE;
    var todo := hist.Keys;
    ghost var done: set<int> := {};
    NoSum(es, InHours({}));
    while todo != {}
      invariant done !! todo && done + todo == hist.Keys
      invariant u == Sum(es, InHours(done))
      decreases todo
    {
      var k := SomeOf(todo);
      HoursAdd(es, done, k);
      u := Plus(u, hist[k]);
      todo, done := todo - {k}, done + {k};
    }
    SameSum(es, InHours(hist.Keys), Any);
  }

  // ---- the cutoff ----

  predicate Increasing(s: seq<int>) { forall i, j | 0 <= i < j < |s| :: s[i] < s[j] }

  method InsertHour(s: seq<int>, k: int) returns (t: seq<int>)
    requires Increasing(s) && k !in s
    ensures Increasing(t) && forall x :: x in t <==> x in s || x == k
  {
    var i := |s|;
    while i > 0 && k < s[i - 1]
      invariant 0 <= i <= |s| && forall j | i <= j < |s| :: k < s[j]
    {
      i := i - 1;
    }
    assert forall j | 0 <= j < |s| :: s[j] in s;
    InsertedIn(s, k, i);
    Holds(s, k, i);
    t := s[..i] + [k] + s[i..];
  }

  lemma InsertedIn(s: seq<int>, k: int, i: nat)
    requires Increasing(s) && i <= |s| && (forall j | i <= j < |s| :: k < s[j]) && (i > 0 ==> s[i - 1] < k)
    ensures Increasing(s[..i] + [k] + s[i..])
  {
    assert forall j | 0 <= j < i - 1 :: s[j] < s[i - 1];
  }

  lemma Holds(s: seq<int>, x: int, k: nat)
    requires k <= |s|
    ensures forall y :: y in s[..k] + [x] + s[k..] <==> y in s || y == x
  {
    assert s == s[..k] + s[k..];
  }

  /** The hours at or before last, oldest first. */
  method HoursUpTo(hist: map<int, Usage>, last: int) returns (hours: seq<int>)
    ensures Increasing(hours) && forall k :: k in hours <==> k in hist && k <= last
  {
    hours := [];
    var todo := hist.Keys;
    while todo != {}
      invariant todo <= hist.Keys && Increasing(hours)
      invariant forall k :: k in hours <==> k in hist && k !in todo && k <= last
      decreases todo
    {
      var k := SomeOf(todo);
      if k <= last {
        hours := InsertHour(hours, k);
      }
      todo := todo - {k};
    }
  }

  function SetOf(s: seq<int>): set<int> { set x | x in s }

  /** The last second of an hour. */
  function EndOf(hour: int): int { (hour + 1) * 3600 - 1 }

  lemma HoursAreUpTo(es: seq<CacheEntry>, hours: set<int>, h: int)
    requires forall i | 0 <= i < |es| :: HourBucket(es[i].mtime) in hours <==> HourBucket(es[i].mtime) <= h
    ensures Sum(es, InHours(hours)) == AtOrBefore(es, EndOf(h))
  {
    forall i | 0 <= i < |es| ensures InHours(hours).Takes(es[i]) == ByTime(EndOf(h)).Takes(es[i]) {
      InHourIff(es[i].mtime, HourBucket(es[i].mtime), h);
    }
    SameSum(es, InHours(hours), ByTime(EndOf(h)));
  }

  lemma InHourIff(sec: int, k: int, h: int)
    requires k * 3600 <= sec < (k + 1) * 3600
    ensures k <= h <==> sec <= EndOf(h)
  {
  }

  /** What the cutoff promises: the entries at or before it are exactly those counted;
      it is before the limit; without the newest hour taken there is less than wanted;
      and when there is still less than wanted, every whole hour before the limit went. */
  ghost predicate CutRight(es: seq<CacheEntry>, want: int, limit: int, at: int, doomed: Usage) {
    && doomed == AtOrBefore(es, at) && doomed.files > 0
    && at < limit
    && AtOrBefore(es, at - 3600).bytes < want
    && (doomed.bytes < want ==> AtOrBefore(es, EndOf(HourBucket(limit) - 1)) == doomed)
  }

  /** The hours of the histogram that end at or before the limit. */
  ghost predicate Eligible(es: seq<CacheEntry>, hist: map<int, Usage>, last: int, hours: seq<int>) {
    IsHist(es, hist) && Increasing(hours) && forall k :: k in hours <==> k in hist && k <= last
  }

  /** After the first n hours were taken. */
  ghost predicate Taking(es: seq<CacheEntry>, hours: seq<int>, n: nat, at: int, doomed: Usage) {
    && n <= |hours| && doomed == Sum(es, InHours(SetOf(hours[..n])))
    && (n > 0 ==> at == EndOf(hours[n - 1]) && doomed == AtOrBefore(es, at))
  }

  lemma TakeNext(es: seq<CacheEntry>, hist: map<int, Usage>, hours: seq<int>, last: int, n: nat, at: int, doomed: Usage)
    requires Eligible(es, hist, last, hours) && n < |hours| && Taking(es, hours, n, at, doomed)
    ensures hours[n] in hist && Taking(es, hours, n + 1, EndOf(hours[n]), Plus(doomed, hist[hours[n]]))
    ensures doomed == AtOrBefore(es, EndOf(hours[n]) - 3600)
  {
    var k := hours[n];
    assert k in hours;
    SetOfNext(hours, n);
    HoursAdd(es, SetOf(hours[..n]), k);
    UpToAll(es, hist, hours, last, n);
    HoursAreUpTo(es, SetOf(hours[..n + 1]), k);
    HoursAreUpTo(es, SetOf(hours[..n]), k - 1);
    assert EndOf(k) - 3600 == EndOf(k - 1);
  }

  lemma UpToAll(es: seq<CacheEntry>, hist: map<int, Usage>, hours: seq<int>, last: int, n: nat)
    requires Eligible(es, hist, last, hours) && n < |hours|
    ensures forall i | 0 <= i < |es| ::
      HourBucket(es[i].mtime) in SetOf(hours[..n + 1]) <==> HourBucket(es[i].mtime) <= hours[n]
    ensures forall i | 0 <= i < |es| ::
      HourBucket(es[i].mtime) in SetOf(hours[..n]) <==> HourBucket(es[i].mtime) <= hours[n] - 1
  {
    assert hours[n] in hours;
    forall i | 0 <= i < |es|
      ensures HourBucket(es[i].mtime) in SetOf(hours[..n + 1]) <==> HourBucket(es[i].mtime) <= hours[n]
      ensures HourBucket(es[i].mtime) in SetOf(hours[..n]) <==> HourBucket(es[i].mtime) <= hours[n] - 1
    {
      UpToIs(hours, n, HourBucket(es[i].mtime));
    }
  }

  lemma SetOfNext(hours: seq<int>, n: nat)
    requires Increasing(hours) && n < |hours|
    ensures SetOf(hours[..n + 1]) == SetOf(hours[..n]) + {hours[n]} && hours[n] !in SetOf(hours[..n])
  {
    assert hours[..n + 1] == hours[..n] + [hours[n]];
  }

  /** In increasing hours, those up to one are the ones before it. */
  lemma UpToIs(hours: seq<int>, n: nat, h: int)
    requires Increasing(hours) && n < |hours| && (h <= hours[n] ==> h in hours)
    ensures h in SetOf(hours[..n + 1]) <==> h <= hours[n]
    ensures h in SetOf(hours[..n]) <==> h < hours[n]
  {
    SetOfNext(hours, n);
    if h < hours[n] {
      var i :| 0 <= i < |hours| && hours[i] == h;
      assert i < n && hours[..n][i] == h;
    }
  }

  /** What was doomed before the newest hour taken was less than wanted. */
  ghost predicate Enough(es: seq<CacheEntry>, want: int, n: nat, at: int, doomed: Usage) {
    n > 0 ==> AtOrBefore(es, at - 3600).bytes < want && doomed.files > 0
  }

  method CutOff(hist: map<int, Usage>, want: int, limit: int, ghost es: seq<CacheEntry>)
    returns (at: int, doomed: Usage)
    requires IsHist(es, hist) && want > 0
    ensures doomed.files > 0 ==> CutRight(es, want, limit, at, doomed)
    ensures doomed.files > 0 <==> AtOrBefore(es, EndOf(HourBucket(limit) - 1)).files > 0
  {
    var last := HourBucket(limit) - 1;
    var hours := HoursUpTo(hist, last);
    at, doomed := 0, NONE;
    NoSum(es, InHours(SetOf(hours[..0])));
    var n := 0;
    while n < |hours| && (n == 0 || doomed.bytes < want)
      invariant 0 <= n <= |hours| && Taking(es, hours, n, at, doomed) && Enough(es, want, n, at, doomed)
    {
      TakeNext(es, hist, hours, last, n, at, doomed);
      doomed := Plus(doomed, hist[hours[n]]);
      at := EndOf(hours[n]);
      n := n + 1;
    }
    AllTaken(es, hist, hours, last, n, at, doomed);
  }

  /** Every hour taken, or none there to take. */
  lemma AllTaken(es: seq<CacheEntry>, hist: map<int, Usage>, hours: seq<int>, last: int, n: nat, at: int, doomed: Usage)
    requires Eligible(es, hist, last, hours) && Taking(es, hours, n, at, doomed)
    ensures n == |hours| ==> doomed == AtOrBefore(es, EndOf(last))
    ensures n > 0 ==> at <= EndOf(last)
    ensures n > 0 ==> AtOrBefore(es, EndOf(last)).files >= doomed.files
  {
    if n == |hours| {
      assert hours[..n] == hours;
      HoursAreUpTo(es, SetOf(hours), last);
    }
    if n > 0 {
      assert hours[n - 1] in hours;
      MoreBefore(es, at, EndOf(last));
    }
  }

  // ---- the plan ----

  /** Why nothing is planned: an early refusal, or the numbers. */
  datatype Why = Refused | Unreadable | WithinKeep | EnoughFree | NothingOld

  datatype Planned = Planned(at: int, doomed: Usage) | Skipped(why: Why)

  function Min(a: int, b: int): int { if a < b then a else b }

  /** PrunePlan, from the entries surveyed: None when the cache cannot be read. */
  method PrunePlan(refused: bool, read: Option<seq<CacheEntry>>, keepUnder: int, free: int, target: int, now: int,
                   minAge: nat)
    returns (p: Planned)
    ensures refused ==> p == Skipped(Refused)
    ensures !refused && read.None? ==> p == Skipped(Unreadable)
    ensures !refused && read.Some? ==> var es := read.value;
      && (p == Skipped(WithinKeep) <==> All(es).bytes <= keepUnder)
      && (p == Skipped(EnoughFree) <==> All(es).bytes > keepUnder && free >= target)
      && (p.Planned? <==>
           All(es).bytes > keepUnder && free < target && AtOrBefore(es, EndOf(HourBucket(now - minAge) - 1)).files > 0)
      && p != Skipped(Refused) && p != Skipped(Unreadable)
    ensures p.Planned? ==> var es := read.value;
      CutRight(es, Min(All(es).bytes - keepUnder, target - free), now - minAge, p.at, p.doomed)
  {
    if refused {
      return Skipped(Refused);
    }
    if read.None? {
      return Skipped(Unreadable);
    }
    var hist := SurveyCache(read.value);
    var total := TotalOf(hist, read.value);
    if total.bytes <= keepUnder {
      return Skipped(WithinKeep);
    }
    if free >= target {
      return Skipped(EnoughFree);
    }
    var want := Min(total.bytes - keepUnder, target - free);
    var at, doomed := CutOff(hist, want, now - minAge, read.value);
    if doomed.files == 0 {
      return Skipped(NothingOld);
    }
    return Planned(at, doomed);
  }

  lemma {:induction false} MoreBefore(es: seq<CacheEntry>, a: int, b: int)
    requires a <= b
    ensures AtOrBefore(es, a).files <= AtOrBefore(es, b).files && AtOrBefore(es, a).bytes <= AtOrBefore(es, b).bytes
  {
    if es != [] { MoreBefore(es[..|es| - 1], a, b); }
  }

  /** The entries a prune at this cutoff leaves: find deletes those at or before it. */
  function Survivors(es: seq<CacheEntry>, at: int): seq<CacheEntry> {
    if es == [] then []
    else Survivors(es[..|es| - 1], at) + if es[|es| - 1].mtime <= at then [] else [es[|es| - 1]]
  }

  /** What was doomed and what survives are the cache, before and after measured alike. */
  lemma {:induction false} PruneFrees(es: seq<CacheEntry>, at: int)
    ensures AtOrBefore(es, at).files + All(Survivors(es, at)).files == All(es).files
    ensures AtOrBefore(es, at).bytes + All(Survivors(es, at)).bytes == All(es).bytes
  {
    if es != [] {
      var n := |es| - 1;
      PruneFrees(es[..n], at);
      SumNext(Survivors(es[..n], at), es[n], Any);
      assert Survivors(es[..n], at) + [] == Survivors(es[..n], at);
    }
  }

  /** The cache a planned prune leaves is above what it may keep, less the newest hour
      deleted, and no entry younger than the least age goes. */
  lemma LeavesEnough(es: seq<CacheEntry>, keepUnder: int, free: int, target: int, limit: int, at: int, doomed: Usage)
    requires CutRight(es, Min(All(es).bytes - keepUnder, target - free), limit, at, doomed)
    ensures var newest := AtOrBefore(es, at).bytes - AtOrBefore(es, at - 3600).bytes;
      All(Survivors(es, at)).bytes + newest > keepUnder && free + doomed.bytes - newest < target
    ensures forall e <- es :: e !in Survivors(es, at) ==> e.mtime < limit
  {
    PruneFrees(es, at);
    forall e <- es | e !in Survivors(es, at) ensures e.mtime <= at {
      if e.mtime > at { Survives(es, at, e); }
    }
  }

  lemma {:induction false} Survives(es: seq<CacheEntry>, at: int, e: CacheEntry)
    requires e in es && e.mtime > at
    ensures e in Survivors(es, at)
  {
    var n := |es| - 1;
    if es[n] != e {
      assert es == es[..n] + [es[n]];
      Survives(es[..n], at, e);
    }
  }
}
