// A scan's accounting: internal/engine/account.go.
module Ledger {
  import opened Catalog
  import opened Forest
  import opened Nesting

  datatype Bucket = FreesNow | AfterTrash | Exported | ShownOnly | MacOSManaged

  /** The five totals, by bucket. */
  datatype Totals = Totals(sums: map<Bucket, int>, partial: nat) {
    function Sum(): int
      requires forall b: Bucket :: b in sums
    {
      sums[FreesNow] + sums[AfterTrash] + sums[Exported] + sums[ShownOnly] + sums[MacOSManaged]
    }
  }

  datatype Ledger = Ledger(exclusive: map<string, int>, totals: Totals)

  function BucketOf(r: Rule): Bucket {
    if r.phantom then MacOSManaged
    else if !r.risk.Actionable() then ShownOnly
    else if r.native.Some? && r.preAction == VOLUME_EXPORT then Exported
    else if r.native.Some? || r.prune then FreesNow
    else AfterTrash
  }

  /** macOS's own space first, then what is only reported; else what frees space at once is
      a command or a prune, but for one that leaves a tarball, and the rest goes to the Trash. */
  lemma BucketExactly(r: Rule)
    ensures BucketOf(r) == MacOSManaged <==> r.phantom
    ensures BucketOf(r) == ShownOnly <==> !r.phantom && r.risk == SurfaceOnly
    ensures BucketOf(r) == Exported <==>
      !r.phantom && r.risk != SurfaceOnly && r.native.Some? && r.preAction == "docker-volume-export"
    ensures BucketOf(r) == AfterTrash <==> !r.phantom && r.risk != SurfaceOnly && r.native.None? && !r.prune
  {
  }

  // ---- what each item holds alone ----

  ghost function SetOf<T>(rs: seq<T>): set<T> {
    set r | r in rs
  }

  ghost function Kids(ps: PathMap, r: Ref): set<Ref> {
    set c | c in ps && IsParent(ps, r, c)
  }

  /** The bytes of those of rs that are in s. */
  ghost function SumIn(fs: seq<Finding>, rs: seq<Ref>, s: set<Ref>): int
    requires RefsValid(fs, rs)
  {
    if rs == [] then 0 else
      SumIn(fs, rs[..|rs| - 1], s) + (if rs[|rs| - 1] in s then ItemAt(fs, rs[|rs| - 1]).bytes else 0)
  }

  ghost function Left(fs: seq<Finding>, r: Ref): int
    requires ValidRef(fs, r)
  {
    ItemAt(fs, r).bytes - SumIn(fs, AllRefs(fs), Kids(PathsOf(fs), r))
  }

  /** The item's bytes less its direct children's, and never below zero. */
  ghost function Own(fs: seq<Finding>, r: Ref): int
    requires ValidRef(fs, r)
  {
    if Left(fs, r) < 0 then 0 else Left(fs, r)
  }

  /** What a container keeps is what its children do not take, and nothing when they take more. */
  lemma OwnExactly(fs: seq<Finding>, r: Ref)
    requires ValidRef(fs, r)
    ensures var bytes, taken := fs[r.finding].items[r.item].bytes, SumIn(fs, AllRefs(fs), Kids(PathsOf(fs), r));
      && (taken <= bytes ==> Own(fs, r) + taken == bytes)
      && (taken > bytes ==> Own(fs, r) == 0)
  {
  }

  ghost function OwnSum(fs: seq<Finding>, rs: seq<Ref>): int
    requires RefsValid(fs, rs)
  {
    if rs == [] then 0 else OwnSum(fs, rs[..|rs| - 1]) + Own(fs, rs[|rs| - 1])
  }

  /** The own bytes of the items that share an id. */
  ghost function OwnOfID(fs: seq<Finding>, rs: seq<Ref>, id: string): int
    requires RefsValid(fs, rs)
  {
    if rs == [] then 0 else
      OwnOfID(fs, rs[..|rs| - 1], id) + (if RefID(fs, rs[|rs| - 1]) == id then Own(fs, rs[|rs| - 1]) else 0)
  }

  /** The own bytes of the items whose rule counts in b. */
  ghost function OwnOfBucket(fs: seq<Finding>, rs: seq<Ref>, b: Bucket): int
    requires RefsValid(fs, rs)
  {
    if rs == [] then 0 else
      OwnOfBucket(fs, rs[..|rs| - 1], b) +
      (if BucketOf(RuleOf(fs, rs[|rs| - 1])) == b then Own(fs, rs[|rs| - 1]) else 0)
  }

  lemma {:induction false} SumInUnion(fs: seq<Finding>, rs: seq<Ref>, a: set<Ref>, b: set<Ref>)
    requires RefsValid(fs, rs) && a !! b
    ensures SumIn(fs, rs, a + b) == SumIn(fs, rs, a) + SumIn(fs, rs, b)
  {
    if rs != [] { SumInUnion(fs, rs[..|rs| - 1], a, b); }
  }

  lemma {:induction false} SumInOutside(fs: seq<Finding>, rs: seq<Ref>, s: set<Ref>)
    requires RefsValid(fs, rs) && forall r <- rs :: r !in s
    ensures SumIn(fs, rs, s) == 0
  {
    if rs != [] { SumInOutside(fs, rs[..|rs| - 1], s); }
  }

  lemma {:induction false} SumInOne(fs: seq<Finding>, rs: seq<Ref>, r: Ref)
    requires RefsValid(fs, rs) && Distinct(rs) && r in rs
    ensures SumIn(fs, rs, {r}) == ItemAt(fs, r).bytes
  {
    var rest, last := rs[..|rs| - 1], rs[|rs| - 1];
    if last == r {
      SumInOutside(fs, rest, {r});
    } else {
      SumInOne(fs, rest, r);
    }
  }

  // ---- Account ----

  /** The children's bytes, as the inner loop takes them off. */
  method OwnBytes(fs: seq<Finding>, f: Forest, r: Ref) returns (own: int)
    requires f.Valid() && f.paths == PathsOf(fs) && ValidRef(fs, r)
    ensures own == Own(fs, r)
  {
    var kids := f.ChildrenOf(r);
    ChildrenBelow(f, r);
    own := LessThese(fs, kids, AllRefs(fs), ItemAt(fs, r).bytes);
    KidsAreChildren(f, r);
    assert SetOf(kids) == Kids(f.paths, r);
    own := if own < 0 then 0 else own;
  }

  /** The loop that takes them off. */
  method LessThese(fs: seq<Finding>, kids: seq<Ref>, ghost all: seq<Ref>, bytes: int) returns (own: int)
    requires RefsValid(fs, all) && Distinct(all) && Distinct(kids) && forall c <- kids :: c in all
    ensures own == bytes - SumIn(fs, all, SetOf(kids))
  {
    own := bytes;
    SumInOutside(fs, all, SetOf(kids[..0]));
    for i := 0 to |kids|
      invariant own == bytes - SumIn(fs, all, SetOf(kids[..i]))
    {
      assert kids[i] in kids;
      SumInNext(fs, all, kids, i);
      own := own - ItemAt(fs, kids[i]).bytes;
    }
    assert kids[..|kids|] == kids;
  }

  lemma SumInNext(fs: seq<Finding>, all: seq<Ref>, kids: seq<Ref>, i: nat)
    requires RefsValid(fs, all) && Distinct(all) && Distinct(kids) && i < |kids| && kids[i] in all
    ensures SumIn(fs, all, SetOf(kids[..i + 1])) == SumIn(fs, all, SetOf(kids[..i])) + ItemAt(fs, kids[i]).bytes
  {
    assert SetOf(kids[..i + 1]) == SetOf(kids[..i]) + {kids[i]};
    SumInUnion(fs, all, SetOf(kids[..i]), {kids[i]});
    SumInOne(fs, all, kids[i]);
  }

  lemma KidsAreChildren(f: Forest, r: Ref)
    requires f.Valid()
    ensures forall c :: c in f.ChildrenOf(r) <==> c in Kids(f.paths, r)
  {
    forall c <- Kids(f.paths, r) ensures c in f.ChildrenOf(r) {
      OneParent(f.paths, r, f.parent[c], c);
    }
    forall c <- f.ChildrenOf(r) ensures c in Kids(f.paths, r) {
      assert IsParent(f.paths, f.parent[c], c);
    }
  }

  lemma OneParent(ps: PathMap, p: Ref, q: Ref, c: Ref)
    requires IsParent(ps, p, c) && IsParent(ps, q, c)
    ensures p == q
  {
    if p != q {
      AboveChain(ps, p, q, c);
      assert false;
    }
  }

  ghost function IDsOf(fs: seq<Finding>, rs: seq<Ref>): set<string>
    requires RefsValid(fs, rs)
  {
    set r | r in rs :: RefID(fs, r)
  }

  /** led holds, for the items done: their ids, each with the own bytes of the
      items that share it, and the own bytes by bucket. */
  ghost predicate Accounted(fs: seq<Finding>, done: seq<Ref>, led: Ledger) {
    && RefsValid(fs, done)
    && led.exclusive.Keys == IDsOf(fs, done)
    && (forall id <- led.exclusive :: led.exclusive[id] == OwnOfID(fs, done, id))
    && BucketsRight(fs, done, led.totals)
  }

  ghost predicate BucketsRight(fs: seq<Finding>, done: seq<Ref>, t: Totals)
    requires RefsValid(fs, done)
  {
    && (forall b: Bucket :: b in t.sums && t.sums[b] == OwnOfBucket(fs, done, b))
    && t.partial == PartialIn(fs, done)
  }

  /** How many of the items' bytes are lower bounds. */
  ghost function PartialIn(fs: seq<Finding>, rs: seq<Ref>): nat
    requires RefsValid(fs, rs)
  {
    if rs == [] then 0 else PartialIn(fs, rs[..|rs| - 1]) + (if ItemAt(fs, rs[|rs| - 1]).partial then 1 else 0)
  }

  lemma {:induction false} PartialExactly(fs: seq<Finding>, rs: seq<Ref>)
    requires RefsValid(fs, rs)
    ensures PartialIn(fs, rs) == |PartialAt(fs, rs)|
  {
    if rs != [] {
      var n := |rs| - 1;
      PartialExactly(fs, rs[..n]);
      assert rs[n] in rs;
      assert PartialAt(fs, rs) ==
        PartialAt(fs, rs[..n]) + if fs[rs[n].finding].items[rs[n].item].partial then {n} else {};
    }
  }

  /** Where among the items those are whose bytes are a lower bound. */
  ghost function PartialAt(fs: seq<Finding>, rs: seq<Ref>): set<nat>
    requires RefsValid(fs, rs)
  {
    set i: nat | i < |rs| && ValidRef(fs, rs[i]) && fs[rs[i].finding].items[rs[i].item].partial
  }

  /** The entry for id, made or grown. */
  function Bumped(m: map<string, int>, id: string, own: int): map<string, int> {
    m[id := (if id in m then m[id] else 0) + own]
  }

  lemma AccountOne(fs: seq<Finding>, done: seq<Ref>, r: Ref, own: int, led: Ledger, next: Ledger)
    requires Accounted(fs, done, led) && ValidRef(fs, r) && own == Own(fs, r)
    requires next.exclusive == Bumped(led.exclusive, RefID(fs, r), own)
    requires var b := BucketOf(RuleOf(fs, r));
      next.totals.sums == led.totals.sums[b := led.totals.sums[b] + own]
    requires next.totals.partial == led.totals.partial + if ItemAt(fs, r).partial then 1 else 0
    ensures Accounted(fs, done + [r], next)
  {
    BucketOne(fs, done, r, led.totals, next.totals);
    var id := RefID(fs, r);
    if id !in led.exclusive { OwnOfNone(fs, done, id); }
    IDsOfNext(fs, done, r);
    assert next.exclusive.Keys == led.exclusive.Keys + {id};
    ExclusiveNext(fs, done, r, own, led.exclusive, next.exclusive);
  }

  lemma IDsOfNext(fs: seq<Finding>, done: seq<Ref>, r: Ref)
    requires RefsValid(fs, done) && ValidRef(fs, r)
    ensures RefsValid(fs, done + [r]) && IDsOf(fs, done + [r]) == IDsOf(fs, done) + {RefID(fs, r)}
  {
  }

  lemma ExclusiveNext(fs: seq<Finding>, done: seq<Ref>, r: Ref, own: int, m: map<string, int>, next: map<string, int>)
    requires RefsValid(fs, done) && ValidRef(fs, r) && RefsValid(fs, done + [r]) && own == Own(fs, r)
    requires forall id <- m :: m[id] == OwnOfID(fs, done, id)
    requires RefID(fs, r) !in m ==> OwnOfID(fs, done, RefID(fs, r)) == 0
    requires next == Bumped(m, RefID(fs, r), own)
    ensures forall id <- next :: next[id] == OwnOfID(fs, done + [r], id)
  {
    forall id <- next ensures next[id] == OwnOfID(fs, done + [r], id) {
      OwnOfIDStep(fs, done, r, id);
    }
  }

  lemma OwnOfIDStep(fs: seq<Finding>, done: seq<Ref>, r: Ref, id: string)
    requires RefsValid(fs, done) && ValidRef(fs, r)
    ensures RefsValid(fs, done + [r])
    ensures OwnOfID(fs, done + [r], id) == OwnOfID(fs, done, id) + if RefID(fs, r) == id then Own(fs, r) else 0
  {
    assert (done + [r])[..|done|] == done;
  }

  lemma BucketOne(fs: seq<Finding>, done: seq<Ref>, r: Ref, t: Totals, next: Totals)
    requires RefsValid(fs, done) && ValidRef(fs, r) && BucketsRight(fs, done, t)
    requires var b := BucketOf(RuleOf(fs, r)); next.sums == t.sums[b := t.sums[b] + Own(fs, r)]
    requires next.partial == t.partial + if ItemAt(fs, r).partial then 1 else 0
    ensures RefsValid(fs, done + [r]) && BucketsRight(fs, done + [r], next)
  {
    assert (done + [r])[..|done|] == done;
  }

  lemma {:induction false} OwnOfNone(fs: seq<Finding>, rs: seq<Ref>, id: string)
    requires RefsValid(fs, rs) && forall r <- rs :: RefID(fs, r) != id
    ensures OwnOfID(fs, rs, id) == 0
  {
    if rs != [] { OwnOfNone(fs, rs[..|rs| - 1], id); }
  }

  method Account(findings: seq<Finding>) returns (led: Ledger)
    ensures var fs := WithItemKeys(findings, ""); Accounted(fs, AllRefs(fs), led)
  {
    var keyed := WithItemKeys(findings, "");
    var f := BuildForest(keyed);
    led := AccountItems(keyed, f);
  }

  method AccountItems(fs: seq<Finding>, f: Forest) returns (led: Ledger)
    requires f.Valid() && f.paths == PathsOf(fs)
    ensures Accounted(fs, AllRefs(fs), led)
  {
    led := Ledger(map[], NO_TOTALS);
    NothingAccounted(fs);
    for fi := 0 to |fs|
      invariant Accounted(fs, RefsFrom(fs, fi), led)
    {
      RowEnds(fs, fi);
      for ii := 0 to |fs[fi].items|
        invariant Accounted(fs, Row(fs, fi, ii), led)
      {
        RowNext(fs, fi, ii);
        led := CountItem(fs, f, Ref(fi, ii), Row(fs, fi, ii), led);
      }
    }
  }

  lemma RowNext(fs: seq<Finding>, fi: nat, ii: nat)
    requires fi < |fs|
    ensures Row(fs, fi, ii) + [Ref(fi, ii)] == Row(fs, fi, ii + 1)
  {
  }

  lemma RowEnds(fs: seq<Finding>, fi: nat)
    requires fi < |fs|
    ensures Row(fs, fi, 0) == RefsFrom(fs, fi)
    ensures Row(fs, fi, |fs[fi].items|) == RefsFrom(fs, fi + 1)
  {
  }

  /** The loop's body: the item's own bytes, under its id and in its rule's bucket. */
  method CountItem(fs: seq<Finding>, f: Forest, r: Ref, ghost done: seq<Ref>, led: Ledger) returns (next: Ledger)
    requires f.Valid() && f.paths == PathsOf(fs) && ValidRef(fs, r) && Accounted(fs, done, led)
    ensures Accounted(fs, done + [r], next)
  {
    var own := OwnBytes(fs, f, r);
    var id, b := RefID(fs, r), BucketOf(RuleOf(fs, r));
    next := Ledger(Bumped(led.exclusive, id, own),
                   Totals(led.totals.sums[b := led.totals.sums[b] + own],
                          led.totals.partial + if ItemAt(fs, r).partial then 1 else 0));
    AccountOne(fs, done, r, own, led, next);
  }

  const NO_TOTALS := Totals(map[FreesNow := 0, AfterTrash := 0, Exported := 0, ShownOnly := 0, MacOSManaged := 0], 0)

  /** The positions before (fi, ii). */
  ghost function Row(fs: seq<Finding>, fi: nat, ii: nat): seq<Ref>
    requires fi < |fs|
  {
    RefsFrom(fs, fi) + seq(ii, i requires 0 <= i => Ref(fi, i))
  }

  lemma NothingAccounted(fs: seq<Finding>)
    ensures Accounted(fs, [], Ledger(map[], NO_TOTALS))
  {
    forall b: Bucket ensures b in NO_TOTALS.sums && NO_TOTALS.sums[b] == 0 {
      match b case FreesNow => case AfterTrash => case Exported => case ShownOnly => case MacOSManaged =>
    }
  }

  // ---- conservation ----

  function Value(m: map<string, int>, id: string): int { if id in m then m[id] else 0 }

  /** The values of m under the listed ids, 0 for one it lacks. */
  function Values(m: map<string, int>, ids: seq<string>): int {
    if ids == [] then 0 else Value(m, ids[0]) + Values(m, ids[1..])
  }

  ghost predicate Lists<T(!new)>(ids: seq<T>, keys: set<T>) {
    && (forall id :: id in ids <==> id in keys)
    && Distinct(ids)
  }

  ghost function OwnOfIDs(fs: seq<Finding>, rs: seq<Ref>, ids: seq<string>): int
    requires RefsValid(fs, rs)
  {
    if ids == [] then 0 else OwnOfID(fs, rs, ids[0]) + OwnOfIDs(fs, rs, ids[1..])
  }

  lemma {:induction false} OwnOfIDsEmpty(fs: seq<Finding>, ids: seq<string>)
    ensures OwnOfIDs(fs, [], ids) == 0
  {
    if ids != [] { OwnOfIDsEmpty(fs, ids[1..]); }
  }

  lemma {:induction false} OwnOfIDsNext(fs: seq<Finding>, rs: seq<Ref>, r: Ref, ids: seq<string>)
    requires RefsValid(fs, rs + [r]) && RefsValid(fs, rs) && ValidRef(fs, r)
    requires Distinct(ids)
    ensures OwnOfIDs(fs, rs + [r], ids) == OwnOfIDs(fs, rs, ids) + (if RefID(fs, r) in ids then Own(fs, r) else 0)
  {
    if ids != [] {
      assert (rs + [r])[..|rs|] == rs;
      OwnOfIDsNext(fs, rs, r, ids[1..]);
      assert RefID(fs, r) == ids[0] ==> RefID(fs, r) !in ids[1..];
    }
  }

  lemma {:induction false} IDsHoldAll(fs: seq<Finding>, rs: seq<Ref>, ids: seq<string>)
    requires RefsValid(fs, rs)
    requires Distinct(ids)
    requires forall r <- rs :: RefID(fs, r) in ids
    ensures OwnOfIDs(fs, rs, ids) == OwnSum(fs, rs)
  {
    if rs == [] {
      OwnOfIDsEmpty(fs, ids);
    } else {
      var rest, last := rs[..|rs| - 1], rs[|rs| - 1];
      assert rs == rest + [last];
      IDsHoldAll(fs, rest, ids);
      OwnOfIDsNext(fs, rest, last, ids);
    }
  }

  lemma {:induction false} ValuesAreOwn(fs: seq<Finding>, rs: seq<Ref>, led: Ledger, ids: seq<string>)
    requires Accounted(fs, rs, led) && forall id <- ids :: id in led.exclusive
    ensures Values(led.exclusive, ids) == OwnOfIDs(fs, rs, ids)
  {
    if ids != [] { ValuesAreOwn(fs, rs, led, ids[1..]); }
  }

  lemma {:induction false} BucketsHoldAll(fs: seq<Finding>, rs: seq<Ref>)
    requires RefsValid(fs, rs)
    ensures OwnOfBucket(fs, rs, FreesNow) + OwnOfBucket(fs, rs, AfterTrash) + OwnOfBucket(fs, rs, Exported)
         + OwnOfBucket(fs, rs, ShownOnly) + OwnOfBucket(fs, rs, MacOSManaged) == OwnSum(fs, rs)
  {
    if rs != [] { BucketsHoldAll(fs, rs[..|rs| - 1]); }
  }

  ghost predicate IsRoot(ps: PathMap, r: Ref) {
    forall a :: !Above(ps, a, r)
  }

  ghost function RootSet(fs: seq<Finding>): set<Ref> {
    set r | r in AllRefs(fs) && IsRoot(PathsOf(fs), r)
  }

  ghost function KidsOfAll(ps: PathMap, rs: seq<Ref>): set<Ref> {
    set r, c | r in rs && c in Kids(ps, r) :: c
  }

  ghost function LeftSum(fs: seq<Finding>, rs: seq<Ref>): int
    requires RefsValid(fs, rs)
  {
    if rs == [] then 0 else LeftSum(fs, rs[..|rs| - 1]) + Left(fs, rs[|rs| - 1])
  }

  /** Each child is taken off once, under its one parent. */
  lemma {:induction false} ChildrenTakenOnce(fs: seq<Finding>, rs: seq<Ref>)
    requires RefsValid(fs, rs) && Distinct(rs)
    ensures LeftSum(fs, rs) == SumIn(fs, rs, SetOf(rs)) - SumIn(fs, AllRefs(fs), KidsOfAll(PathsOf(fs), rs))
  {
    var ps, all := PathsOf(fs), AllRefs(fs);
    if rs == [] {
      SumInOutside(fs, all, KidsOfAll(ps, rs));
    } else {
      var rest, last := rs[..|rs| - 1], rs[|rs| - 1];
      assert rs == rest + [last];
      ChildrenTakenOnce(fs, rest);
      KidsApart(ps, rest, last);
      SumInUnion(fs, all, KidsOfAll(ps, rest), Kids(ps, last));
      SumInWider(fs, rest, SetOf(rest), SetOf(rs));
    }
  }

  /** No child has two parents. */
  lemma KidsApart(ps: PathMap, rest: seq<Ref>, last: Ref)
    requires last !in rest
    ensures KidsOfAll(ps, rest + [last]) == KidsOfAll(ps, rest) + Kids(ps, last)
    ensures KidsOfAll(ps, rest) !! Kids(ps, last)
  {
    forall c <- KidsOfAll(ps, rest) ensures c !in Kids(ps, last) {
      var p :| p in rest && c in Kids(ps, p);
      if c in Kids(ps, last) { OneParent(ps, p, last, c); }
    }
  }

  lemma {:induction false} SumInWider(fs: seq<Finding>, rs: seq<Ref>, a: set<Ref>, b: set<Ref>)
    requires RefsValid(fs, rs) && forall r <- rs :: r in a <==> r in b
    ensures SumIn(fs, rs, a) == SumIn(fs, rs, b)
  {
    if rs != [] { SumInWider(fs, rs[..|rs| - 1], a, b); }
  }

  /** A parent exists for everything that is not a root. */
  lemma SomeParent(ps: PathMap, c: Ref) returns (p: Ref)
    requires !IsRoot(ps, c)
    ensures IsParent(ps, p, c)
  {
    var a :| Above(ps, a, c);
    p := NearestAbove(ps, a, c);
  }

  lemma NearestAbove(ps: PathMap, a: Ref, c: Ref) returns (p: Ref)
    requires Above(ps, a, c)
    ensures IsParent(ps, p, c)
    decreases |BelowSet(ps, a)|
  {
    if IsParent(ps, a, c) {
      p := a;
    } else {
      var b :| Above(ps, b, c) && b != a && !Above(ps, b, a);
      AboveChain(ps, a, b, c);
      forall d <- BelowSet(ps, b) ensures d in BelowSet(ps, a) { AboveTransitive(ps, a, b, d); }
      assert b in BelowSet(ps, a) && b !in BelowSet(ps, b);
      SubsetSmaller(BelowSet(ps, b), BelowSet(ps, a));
      p := NearestAbove(ps, b, c);
    }
  }

  lemma LeftIsRoots(fs: seq<Finding>)
    ensures LeftSum(fs, AllRefs(fs)) == SumIn(fs, AllRefs(fs), RootSet(fs))
  {
    var ps, all := PathsOf(fs), AllRefs(fs);
    var kids, roots, every := KidsOfAll(ps, all), RootSet(fs), SetOf(all);
    ChildrenTakenOnce(fs, all);
    forall r <- all ensures (r in kids) != (r in roots) {
      if !IsRoot(ps, r) {
        var p := SomeParent(ps, r);
        assert p in all && r in Kids(ps, p);
      }
    }
    assert every == kids + roots;
    SumInUnion(fs, all, kids, roots);
  }

  lemma {:induction false} OwnAtLeastLeft(fs: seq<Finding>, rs: seq<Ref>)
    requires RefsValid(fs, rs)
    ensures OwnSum(fs, rs) >= LeftSum(fs, rs)
    ensures OwnSum(fs, rs) == LeftSum(fs, rs) <==> forall r <- rs :: Left(fs, r) >= 0
  {
    if rs != [] {
      OwnAtLeastLeft(fs, rs[..|rs| - 1]);
      assert forall r <- rs :: r in rs[..|rs| - 1] || r == rs[|rs| - 1];
    }
  }

  /** Conservation: the buckets, and the exclusive shares however listed, add up to
      one sum; it is at least the root items' bytes, and equal to them exactly
      when no item is smaller than its direct children together. */
  lemma Conserved(fs: seq<Finding>, led: Ledger, ids: seq<string>)
    requires Accounted(fs, AllRefs(fs), led) && Lists(ids, led.exclusive.Keys)
    ensures led.totals.Sum() == Values(led.exclusive, ids)
    ensures led.totals.Sum() >= SumIn(fs, AllRefs(fs), RootSet(fs))
    ensures led.totals.Sum() == SumIn(fs, AllRefs(fs), RootSet(fs)) <==> forall r <- AllRefs(fs) :: Left(fs, r) >= 0
  {
    var all := AllRefs(fs);
    BucketsHoldAll(fs, all);
    ValuesAreOwn(fs, all, led, ids);
    IDsHoldAll(fs, all, ids);
    LeftIsRoots(fs);
    OwnAtLeastLeft(fs, all);
  }

  // ---- Share ----

  /** f's item ids, each once, in item order. */
  function DistinctIDs(f: Finding, n: nat): (ids: seq<string>)
    requires n <= |f.items|
    ensures forall id :: id in ids <==> exists i :: 0 <= i < n && id == ItemID(f.rule.id, f.items[i].key)
    ensures Distinct(ids)
  {
    if n == 0 then [] else
      var rest, id := DistinctIDs(f, n - 1), ItemID(f.rule.id, f.items[n - 1].key);
      if id in rest then rest else rest + [id]
  }

  method Share(led: Ledger, f: Finding) returns (n: int)
    ensures n == Values(led.exclusive, DistinctIDs(f, |f.items|))
  {
    n := 0;
    var seen: set<string> := {};
    for i := 0 to |f.items|
      invariant Shared(led.exclusive, f, i, seen, n)
    {
      var id := ItemID(f.rule.id, f.items[i].key);
      SharedNext(led.exclusive, f, i, id, seen, n);
      if id !in seen {
        seen := seen + {id};
        n := n + Value(led.exclusive, id);
      }
    }
  }

  /** The ids met among the first n items, and their values together. */
  ghost predicate Shared(m: map<string, int>, f: Finding, n: nat, seen: set<string>, sum: int)
    requires n <= |f.items|
  {
    (forall id :: id in seen <==> id in DistinctIDs(f, n)) && sum == Values(m, DistinctIDs(f, n))
  }

  lemma SharedNext(m: map<string, int>, f: Finding, n: nat, id: string, seen: set<string>, sum: int)
    requires n < |f.items| && Shared(m, f, n, seen, sum) && id == ItemID(f.rule.id, f.items[n].key)
    ensures if id in seen then Shared(m, f, n + 1, seen, sum) else Shared(m, f, n + 1, seen + {id}, sum + Value(m, id))
  {
    var ids := DistinctIDs(f, n);
    assert DistinctIDs(f, n + 1) == if id in ids then ids else ids + [id];
    ValuesAppend(m, ids, [id]);
    assert Values(m, [id]) == Value(m, id);
  }

  lemma {:induction false} ValuesAppend(m: map<string, int>, a: seq<string>, b: seq<string>)
    ensures Values(m, a + b) == Values(m, a) + Values(m, b)
  {
    if a == [] {
      assert a + b == b;
    } else {
      ValuesAppend(m, a[1..], b);
      assert (a + b)[1..] == a[1..] + b;
    }
  }

  ghost function AllIDs(fs: seq<Finding>, n: nat): seq<string>
    requires n <= |fs|
  {
    if n == 0 then [] else AllIDs(fs, n - 1) + DistinctIDs(fs[n - 1], |fs[n - 1].items|)
  }

  /** The findings' shares, one after another. */
  ghost function ShareSum(m: map<string, int>, fs: seq<Finding>, n: nat): int
    requires n <= |fs|
  {
    if n == 0 then 0 else
      ShareSum(m, fs, n - 1) + Values(m, DistinctIDs(fs[n - 1], |fs[n - 1].items|))
  }

  /** id is that of an item of one of the first n findings. */
  ghost predicate IDBefore(fs: seq<Finding>, n: nat, id: string) {
    exists r :: ValidRef(fs, r) && r.finding < n && RefID(fs, r) == id
  }

  ghost predicate IDsListed(fs: seq<Finding>, n: nat)
    requires n <= |fs|
  {
    (forall id :: id in AllIDs(fs, n) <==> IDBefore(fs, n, id)) && Distinct(AllIDs(fs, n))
  }

  lemma {:induction false} AllIDsList(fs: seq<Finding>, n: nat)
    requires n <= |fs| && RuleIDsDistinct(fs)
    ensures IDsListed(fs, n)
  {
    if n > 0 {
      var k := n - 1;
      AllIDsList(fs, k);
      RowListed(fs, k, AllIDs(fs, k));
    }
  }

  lemma RowListed(fs: seq<Finding>, n: nat, rest: seq<string>)
    requires n < |fs| && RuleIDsDistinct(fs) && rest == AllIDs(fs, n) && IDsListed(fs, n)
    ensures IDsListed(fs, n + 1)
  {
    var last := DistinctIDs(fs[n], |fs[n].items|);
    RowIDs(fs, n);
    forall id <- rest ensures id !in last {
      var r :| ValidRef(fs, r) && r.finding < n && RefID(fs, r) == id;
      OtherRule(fs, r, n);
    }
    DistinctConcat(rest, last);
    assert AllIDs(fs, n + 1) == rest + last;
    forall id ensures id in rest + last <==> IDBefore(fs, n + 1, id) {
      assert IDBefore(fs, n + 1, id) <==> IDBefore(fs, n, id) || id in last;
    }
  }

  lemma RowIDs(fs: seq<Finding>, fi: nat)
    requires fi < |fs|
    ensures forall id ::
      id in DistinctIDs(fs[fi], |fs[fi].items|) <==>
      exists r :: ValidRef(fs, r) && r.finding == fi && RefID(fs, r) == id
  {
    var row := DistinctIDs(fs[fi], |fs[fi].items|);
    forall id <- row ensures exists r :: ValidRef(fs, r) && r.finding == fi && RefID(fs, r) == id {
      var i :| 0 <= i < |fs[fi].items| && id == ItemID(fs[fi].rule.id, fs[fi].items[i].key);
      assert RefID(fs, Ref(fi, i)) == id;
    }
  }

  /** Ids of different rules differ. */
  lemma OtherRule(fs: seq<Finding>, r: Ref, fi: nat)
    requires RuleIDsDistinct(fs) && ValidRef(fs, r) && r.finding < fi < |fs|
    ensures RefID(fs, r) !in DistinctIDs(fs[fi], |fs[fi].items|)
  {
    if RefID(fs, r) in DistinctIDs(fs[fi], |fs[fi].items|) {
      var i :| 0 <= i < |fs[fi].items| && RefID(fs, r) == ItemID(fs[fi].rule.id, fs[fi].items[i].key);
      SplitJoined(RuleOf(fs, r).id, ItemAt(fs, r).key);
      SplitJoined(fs[fi].rule.id, fs[fi].items[i].key);
    }
  }

  ghost predicate Shares(m: map<string, int>, fs: seq<Finding>, n: nat)
    requires n <= |fs|
  {
    ShareSum(m, fs, n) == Values(m, AllIDs(fs, n))
  }

  lemma {:induction false} SharesAreValues(m: map<string, int>, fs: seq<Finding>, n: nat)
    requires n <= |fs|
    ensures Shares(m, fs, n)
  {
    if n > 0 {
      var k := n - 1;
      SharesAreValues(m, fs, k);
      AnotherRow(m, fs, k);
    }
  }

  lemma AnotherRow(m: map<string, int>, fs: seq<Finding>, n: nat)
    requires n < |fs| && Shares(m, fs, n)
    ensures Shares(m, fs, n + 1)
  {
    var rest, row := AllIDs(fs, n), DistinctIDs(fs[n], |fs[n].items|);
    assert AllIDs(fs, n + 1) == rest + row;
    ValuesAppend(m, rest, row);
  }

  /** The findings' shares add up to the same sum. */
  lemma SharesConserved(fs: seq<Finding>, led: Ledger)
    requires Accounted(fs, AllRefs(fs), led) && RuleIDsDistinct(fs)
    ensures ShareSum(led.exclusive, fs, |fs|) == led.totals.Sum()
  {
    IDsAreKeys(fs, led);
    SharesAreValues(led.exclusive, fs, |fs|);
    Conserved(fs, led, AllIDs(fs, |fs|));
  }

  lemma IDsAreKeys(fs: seq<Finding>, led: Ledger)
    requires Accounted(fs, AllRefs(fs), led) && RuleIDsDistinct(fs)
    ensures Lists(AllIDs(fs, |fs|), led.exclusive.Keys)
  {
    AllIDsList(fs, |fs|);
    forall id ensures id in AllIDs(fs, |fs|) <==> id in led.exclusive.Keys {
      if id in led.exclusive.Keys { KeyIsListed(fs, led, id); }
    }
  }

  lemma KeyIsListed(fs: seq<Finding>, led: Ledger, id: string)
    requires Accounted(fs, AllRefs(fs), led) && RuleIDsDistinct(fs) && id in led.exclusive
    ensures id in AllIDs(fs, |fs|)
  {
    var r := RefOfKey(fs, led, id);
    RefIsListed(fs, r);
  }

  lemma RefIsListed(fs: seq<Finding>, r: Ref)
    requires RuleIDsDistinct(fs) && ValidRef(fs, r)
    ensures RefID(fs, r) in AllIDs(fs, |fs|)
  {
    AllIDsList(fs, |fs|);
    assert IDBefore(fs, |fs|, RefID(fs, r));
  }

  lemma RefOfKey(fs: seq<Finding>, led: Ledger, id: string) returns (r: Ref)
    requires Accounted(fs, AllRefs(fs), led) && id in led.exclusive
    ensures ValidRef(fs, r) && RefID(fs, r) == id
  {
    r :| r in AllRefs(fs) && RefID(fs, r) == id;
  }
}
