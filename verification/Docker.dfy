// Docker volumes: who uses them, when they were last used, and which may be offered.
// internal/docker/snapshot.go, ledger.go, classify.go.
module Docker {
  import opened Paths

  const STALE_AGE := 30 * 24 * 3600

  /** Times are whole seconds, 0 for none. */
  datatype Volume = Volume(name: string, createdAt: nat, anonymous: bool, project: string, bytes: int,
                           usedBy: seq<string>, lastUsed: nat)

  datatype Container = Container(name: string, created: nat, startedAt: nat, finishedAt: nat, volumes: seq<string>)

  function Max(a: nat, b: nat): nat { if a < b then b else a }

  function LastUse(c: Container): nat { Max(c.created, Max(c.startedAt, c.finishedAt)) }

  /** The newest of the container's times. */
  lemma LastUseIsNewest(c: Container)
    ensures c.created <= LastUse(c) && c.startedAt <= LastUse(c) && c.finishedAt <= LastUse(c)
    ensures LastUse(c) in {c.created, c.startedAt, c.finishedAt}
  {
  }

  const UNKNOWN := "(unknown container)"

  // ---- who uses what ----

  /** One mount of a volume, by a container last used then. */
  datatype Mount = Mount(volume: string, container: string, at: nat)

  function MountsOf(c: Container): seq<Mount> {
    seq(|c.volumes|, i requires 0 <= i < |c.volumes| => Mount(c.volumes[i], c.name, LastUse(c)))
  }

  function Mounts(cs: seq<Container>): seq<Mount> {
    if cs == [] then [] else Mounts(cs[..|cs| - 1]) + MountsOf(cs[|cs| - 1])
  }

  function Users(ms: seq<Mount>, name: string): seq<string> {
    if ms == [] then []
    else Users(ms[..|ms| - 1], name) + if ms[|ms| - 1].volume == name then [ms[|ms| - 1].container] else []
  }

  function Newest(ms: seq<Mount>, name: string): nat {
    if ms == [] then 0
    else Max(Newest(ms[..|ms| - 1], name), if ms[|ms| - 1].volume == name then ms[|ms| - 1].at else 0)
  }

  /** A volume as its mounts leave it. */
  function Used(v: Volume, ms: seq<Mount>): Volume {
    v.(usedBy := v.usedBy + Users(ms, v.name), lastUsed := Max(v.lastUsed, Newest(ms, v.name)))
  }

  /** The one a name leads to: the last volume of that name. */
  predicate IsNamed(vs: seq<Volume>, i: nat) {
    i < |vs| && forall j | i < j < |vs| :: vs[j].name != vs[i].name
  }

  ghost predicate ByName(vs: seq<Volume>, n: nat, byName: map<string, nat>) {
    && n <= |vs|
    && (forall k <- byName ::
      byName[k] < n && vs[byName[k]].name == k && forall j | byName[k] < j < n :: vs[j].name != k)
    && (forall i | 0 <= i < n :: vs[i].name in byName)
  }

  method IndexNames(vols: array<Volume>) returns (byName: map<string, nat>)
    ensures ByName(vols[..], vols.Length, byName)
  {
    byName := map[];
    for i := 0 to vols.Length
      invariant ByName(vols[..], i, byName)
    {
      byName := byName[vols[i].name := i];
    }
  }

  /** Each volume a name leads to as the mounts so far leave it, the others as they were. */
  ghost predicate UsedSoFar(before: seq<Volume>, now: seq<Volume>, ms: seq<Mount>) {
    |now| == |before| && forall i | 0 <= i < |now| ::
      now[i] == if IsNamed(before, i) then Used(before[i], ms) else before[i]
  }

  /** What one more mount makes of a volume it names. */
  function Mounted(v: Volume, container: string, at: nat): Volume {
    v.(usedBy := v.usedBy + [container], lastUsed := Max(v.lastUsed, at))
  }

  lemma UsedOne(v: Volume, ms: seq<Mount>, m: Mount)
    ensures Used(v, ms + [m]) == if m.volume == v.name then Mounted(Used(v, ms), m.container, m.at) else Used(v, ms)
  {
    assert (ms + [m])[..|ms|] == ms;
    assert v.usedBy + (Users(ms, v.name) + [m.container]) == v.usedBy + Users(ms, v.name) + [m.container];
  }

  lemma UsedNext(before: seq<Volume>, now: seq<Volume>, ms: seq<Mount>, m: Mount, byName: map<string, nat>)
    requires ByName(before, |before|, byName) && UsedSoFar(before, now, ms)
    ensures UsedSoFar(before,
      if m.volume in byName then now[byName[m.volume] := Mounted(now[byName[m.volume]], m.container, m.at)] else now,
      ms + [m])
  {
    forall i | 0 <= i < |before| && IsNamed(before, i)
      ensures Used(before[i], ms + [m]) ==
              if m.volume in byName && byName[m.volume] == i then Mounted(Used(before[i], ms), m.container, m.at)
              else Used(before[i], ms)
    {
      UsedOne(before[i], ms, m);
      NameLeads(before, byName, m.volume, i);
    }
    if m.volume in byName { NameLeads(before, byName, m.volume, byName[m.volume]); }
  }

  lemma NameLeads(vs: seq<Volume>, byName: map<string, nat>, name: string, i: nat)
    requires ByName(vs, |vs|, byName) && i < |vs|
    ensures name in byName && byName[name] == i <==> vs[i].name == name && IsNamed(vs, i)
  {
  }

  method AddMounts(vols: array<Volume>, byName: map<string, nat>, c: Container, ghost before: seq<Volume>,
                   ghost ms: seq<Mount>)
    requires ByName(before, |before|, byName) && UsedSoFar(before, vols[..], ms)
    modifies vols
    ensures UsedSoFar(before, vols[..], ms + MountsOf(c))
  {
    assert ms + [] == ms;
    for j := 0 to |c.volumes|
      invariant UsedSoFar(before, vols[..], ms + MountsOf(c)[..j])
    {
      ghost var m := MountsOf(c)[j];
      ghost var now := vols[..];
      assert MountsOf(c)[..j + 1] == MountsOf(c)[..j] + [m];
      assert ms + MountsOf(c)[..j + 1] == (ms + MountsOf(c)[..j]) + [m];
      UsedNext(before, now, ms + MountsOf(c)[..j], m, byName);
      if c.volumes[j] in byName {
        var k := byName[c.volumes[j]];
        var v := vols[k];
        vols[k] := Mounted(v, c.name, LastUse(c));
        assert vols[..] == now[k := vols[k]];
      }
    }
    assert MountsOf(c)[..|c.volumes|] == MountsOf(c);
  }

  // ---- sorting names ----

  predicate Ascending(s: seq<string>) { forall i, j | 0 <= i < j < |s| :: !Less(s[j], s[i]) }

  method SortStrings(s: seq<string>) returns (t: seq<string>)
    ensures multiset(t) == multiset(s) && Ascending(t)
  {
    t := [];
    for i := 0 to |s|
      invariant multiset(t) == multiset(s[..i]) && Ascending(t)
    {
      assert s[..i + 1] == s[..i] + [s[i]];
      t := InsertString(t, s[i]);
    }
    assert s[..|s|] == s;
  }

  method InsertString(s: seq<string>, x: string) returns (t: seq<string>)
    requires Ascending(s)
    ensures multiset(t) == multiset(s) + multiset{x} && Ascending(t)
  {
    var i := |s|;
    while i > 0 && Less(x, s[i - 1])
      invariant 0 <= i <= |s| && forall j | i <= j < |s| :: Less(x, s[j])
    {
      i := i - 1;
    }
    InsertedString(s, x, i);
    t := s[..i] + [x] + s[i..];
    assert s == s[..i] + s[i..];
  }

  lemma InsertedString(s: seq<string>, x: string, i: nat)
    requires Ascending(s) && i <= |s| && (forall j | i <= j < |s| :: Less(x, s[j])) && (i > 0 ==> !Less(x, s[i - 1]))
    ensures Ascending(s[..i] + [x] + s[i..])
  {
    forall j | 0 <= j < i ensures !Less(x, s[j]) {
      if j < i - 1 && Less(x, s[j]) { NotAbove(x, s[j], s[i - 1]); }
    }
    forall j | i <= j < |s| ensures !Less(s[j], x) {
      LessAsymmetric(x, s[j]);
    }
  }

  lemma LessAsymmetric(a: string, b: string)
    requires Less(a, b)
    ensures !Less(b, a)
  {
    LessIrreflexive(a);
    if Less(b, a) { LessTransitive(a, b, a); }
  }

  lemma NotAbove(x: string, a: string, b: string)
    requires Less(x, a) && !Less(b, a)
    ensures Less(x, b)
  {
    LessTotal(a, b);
    if Less(a, b) { LessTransitive(x, a, b); }
  }

  // ---- the join ----

  /** A volume after the join: its users sorted, and an unknown one when docker counts
      links no container accounts for. */
  ghost predicate JoinedRight(used: Volume, links: map<string, int>, v: Volume) {
    && v == used.(usedBy := v.usedBy)
    && (if used.usedBy == [] && used.name in links && links[used.name] > 0 then v.usedBy == [UNKNOWN]
        else multiset(v.usedBy) == multiset(used.usedBy) && Ascending(v.usedBy))
  }

  method JoinVolumeUsage(vols: array<Volume>, containers: seq<Container>, links: map<string, int>)
    modifies vols
    ensures forall i | 0 <= i < vols.Length ::
      JoinedRight(if IsNamed(old(vols[..]), i) then Used(old(vols[..])[i], Mounts(containers)) else old(vols[..])[i],
        links, vols[i])
  {
    ghost var before := vols[..];
    var byName := IndexNames(vols);
    NoMounts(before);
    for i := 0 to |containers|
      invariant UsedSoFar(before, vols[..], Mounts(containers[..i]))
    {
      assert containers[..i + 1][..i] == containers[..i];
      AddMounts(vols, byName, containers[i], before, Mounts(containers[..i]));
    }
    assert containers[..|containers|] == containers;
    FinishJoin(vols, links);
  }

  lemma NoMounts(before: seq<Volume>)
    ensures UsedSoFar(before, before, [])
  {
    forall i | 0 <= i < |before| ensures Used(before[i], []) == before[i] {
      assert before[i].usedBy + [] == before[i].usedBy;
    }
  }

  method FinishJoin(vols: array<Volume>, links: map<string, int>)
    modifies vols
    ensures forall i | 0 <= i < vols.Length :: JoinedRight(old(vols[i]), links, vols[i])
  {
    for i := 0 to vols.Length
      invariant forall k | 0 <= k < i :: JoinedRight(old(vols[k]), links, vols[k])
      invariant forall k | i <= k < vols.Length :: vols[k] == old(vols[k])
    {
      var v := vols[i];
      var users := SortStrings(v.usedBy);
      if |users| == 0 && v.name in links && links[v.name] > 0 {
        users := [UNKNOWN];
      }
      NoneSorted(v.usedBy, users);
      vols[i] := v.(usedBy := users);
    }
  }

  lemma NoneSorted(s: seq<string>, t: seq<string>)
    ensures multiset(t) == multiset(s) ==> (|t| == 0 <==> s == [])
  {
    assert |multiset(s)| == |s| && |multiset(t)| == |t|;
  }

  // ---- the usage ledger ----

  /** A volume's name and when it was created: a new volume under an old name has no past. */
  datatype Key = Key(name: string, createdAt: nat)

  type Ledger = map<Key, nat>

  function KeyOf(v: Volume): Key { Key(v.name, v.createdAt) }

  function Known(l: Ledger, k: Key): nat { if k in l then l[k] else 0 }

  function Remembered(l: Ledger, v: Volume): Volume { v.(lastUsed := Max(v.lastUsed, Known(l, KeyOf(v)))) }

  function Keys(vs: seq<Volume>): set<Key> { set v | v in vs :: KeyOf(v) }

  ghost predicate DistinctKeys(vs: seq<Volume>) {
    forall i, j | 0 <= i < j < |vs| :: KeyOf(vs[i]) != KeyOf(vs[j])
  }

  ghost predicate Recorded(l: Ledger, vs: seq<Volume>) {
    forall i | 0 <= i < |vs| :: KeyOf(vs[i]) in l && l[KeyOf(vs[i])] == vs[i].lastUsed
  }

  /** Each volume is as new as the ledger remembers, and the new ledger holds exactly
      the volumes there are. */
  method Merge(vols: array<Volume>, l: Ledger) returns (next: Ledger)
    modifies vols
    ensures forall i | 0 <= i < vols.Length :: vols[i] == Remembered(l, old(vols[i]))
    ensures next.Keys == Keys(old(vols[..]))
    ensures DistinctKeys(old(vols[..])) ==> Recorded(next, vols[..])
  {
    next := map[];
    ghost var before := vols[..];
    for i := 0 to vols.Length
      invariant MergedTo(before, vols[..], i, l, next)
    {
      ghost var now := vols[..];
      MergeStep(before, now, i, l, next);
      var v := vols[i];
      var key := KeyOf(v);
      if key in l && l[key] > v.lastUsed {
        vols[i] := v.(lastUsed := l[key]);
      }
      assert vols[..] == now[i := Remembered(l, before[i])];
      next := next[key := vols[i].lastUsed];
    }
    assert before[..vols.Length] == before && vols[..vols.Length] == vols[..];
  }

  /** The first i volumes merged, the others as they were. */
  ghost predicate MergedTo(before: seq<Volume>, now: seq<Volume>, i: nat, l: Ledger, next: Ledger) {
    && i <= |before| == |now|
    && (forall k | 0 <= k < |now| :: now[k] == if k < i then Remembered(l, before[k]) else before[k])
    && next.Keys == Keys(before[..i])
    && (DistinctKeys(before) ==> Recorded(next, now[..i]))
  }

  lemma MergeStep(before: seq<Volume>, now: seq<Volume>, i: nat, l: Ledger, next: Ledger)
    requires i < |before| && MergedTo(before, now, i, l, next)
    ensures now[i] == before[i]
    ensures var v := Remembered(l, before[i]);
      MergedTo(before, now[i := v], i + 1, l, next[KeyOf(v) := v.lastUsed])
  {
    var v := Remembered(l, before[i]);
    assert before[..i + 1] == before[..i] + [before[i]];
    assert now[i := v][..i + 1] == now[..i] + [v];
    forall k | 0 <= k < i ensures DistinctKeys(before) ==> KeyOf(now[k]) != KeyOf(v) {
      assert KeyOf(now[k]) == KeyOf(before[k]) && KeyOf(v) == KeyOf(before[i]);
    }
  }

  /** The uses one scan derives for the volumes there are. */
  type Scan = map<Key, nat>

  function Merged(l: Ledger, scan: Scan): Ledger { map k | k in scan :: Max(scan[k], Known(l, k)) }

  function LedgerAfter(scans: seq<Scan>, n: nat): Ledger
    requires n <= |scans|
  {
    if n == 0 then map[] else Merged(LedgerAfter(scans, n - 1), scans[n - 1])
  }

  /** The newest use the scans from m to before n derived. */
  function NewestUse(scans: seq<Scan>, k: Key, m: nat, n: nat): nat
    requires m <= n <= |scans|
  {
    if m == n then 0 else Max(NewestUse(scans, k, m, n - 1), Known(scans[n - 1], k))
  }

  /** A volume there at every scan since m carries the newest use any of them derived,
      and nothing from before it was there. */
  lemma {:induction false} LedgerRemembers(scans: seq<Scan>, k: Key, m: nat, n: nat)
    requires m < n <= |scans| && forall i | m <= i < n :: k in scans[i]
    requires m > 0 ==> k !in scans[m - 1]
    ensures k in LedgerAfter(scans, n) && LedgerAfter(scans, n)[k] == NewestUse(scans, k, m, n)
  {
    if m == n - 1 {
      if m > 0 { LedgerIsScan(scans, m); }
    } else {
      LedgerRemembers(scans, k, m, n - 1);
    }
  }

  lemma LedgerIsScan(scans: seq<Scan>, n: nat)
    requires 0 < n <= |scans|
    ensures LedgerAfter(scans, n).Keys == scans[n - 1].Keys
  {
  }

  lemma {:induction false} NewestIsAtLeast(scans: seq<Scan>, k: Key, m: nat, n: nat, j: nat)
    requires m <= j < n <= |scans|
    ensures Known(scans[j], k) <= NewestUse(scans, k, m, n)
  {
    if j < n - 1 { NewestIsAtLeast(scans, k, m, n - 1, j); }
  }

  // ---- the tiers ----

  datatype Tier = Named | Anonymous | Kept

  /** keeps: the user's keep list. */
  datatype Config = Config(keeps: (string, string) -> bool, cap: int)

  /** Nothing stands in the way of offering it but its age. */
  predicate Unclaimed(v: Volume, cfg: Config) {
    v.usedBy == [] && !cfg.keeps(v.name, v.project) && v.bytes <= cfg.cap
  }

  /** Its last use, or with none its creation, is thirty days back or more. */
  predicate Rested(v: Volume, now: int) {
    if v.lastUsed != 0 then v.lastUsed + STALE_AGE <= now else v.createdAt + STALE_AGE <= now
  }

  /** When a volume is in a tier. */
  predicate InTier(v: Volume, cfg: Config, now: int, tier: Tier) {
    match tier
    case Named => Unclaimed(v, cfg) && !v.anonymous
    case Anonymous => Unclaimed(v, cfg) && v.anonymous && Rested(v, now)
    case Kept => !Unclaimed(v, cfg) || (v.anonymous && !Rested(v, now))
  }

  /** Every volume is in exactly one tier. */
  lemma OneTier(v: Volume, cfg: Config, now: int)
    ensures exists tier :: InTier(v, cfg, now, tier) && forall other | InTier(v, cfg, now, other) :: other == tier
  {
    var tier :=
      if !Unclaimed(v, cfg) || (v.anonymous && !Rested(v, now)) then Kept
      else if v.anonymous then Anonymous
      else Named;
    assert InTier(v, cfg, now, tier);
  }

  datatype Tiers = Tiers(named: seq<Volume>, anon: seq<Volume>, kept: seq<Volume>)

  /** Every volume is in one tier, its own. */
  ghost predicate Partition(vs: seq<Volume>, cfg: Config, now: int, t: Tiers) {
    && multiset(t.named) + multiset(t.anon) + multiset(t.kept) == multiset(vs)
    && (forall v <- t.named :: InTier(v, cfg, now, Named))
    && (forall v <- t.anon :: InTier(v, cfg, now, Anonymous))
    && (forall v <- t.kept :: InTier(v, cfg, now, Kept))
  }

  method SortVolumes(vs: seq<Volume>) returns (t: seq<Volume>)
    ensures multiset(t) == multiset(vs)
    ensures forall i, j | 0 <= i < j < |t| :: !Less(t[j].name, t[i].name)
  {
    t := [];
    for i := 0 to |vs|
      invariant multiset(t) == multiset(vs[..i]) && ByNames(t)
    {
      assert vs[..i + 1] == vs[..i] + [vs[i]];
      t := InsertVolume(t, vs[i]);
    }
    assert vs[..|vs|] == vs;
  }

  predicate ByNames(t: seq<Volume>) { forall i, j | 0 <= i < j < |t| :: !Less(t[j].name, t[i].name) }

  method InsertVolume(s: seq<Volume>, x: Volume) returns (t: seq<Volume>)
    requires ByNames(s)
    ensures multiset(t) == multiset(s) + multiset{x} && ByNames(t)
  {
    var i := |s|;
    while i > 0 && Less(x.name, s[i - 1].name)
      invariant 0 <= i <= |s| && forall j | i <= j < |s| :: Less(x.name, s[j].name)
    {
      i := i - 1;
    }
    InsertedVolume(s, x, i);
    t := s[..i] + [x] + s[i..];
    assert s == s[..i] + s[i..];
  }

  lemma InsertedVolume(s: seq<Volume>, x: Volume, i: nat)
    requires ByNames(s) && i <= |s| && (forall j | i <= j < |s| :: Less(x.name, s[j].name))
      && (i > 0 ==> !Less(x.name, s[i - 1].name))
    ensures ByNames(s[..i] + [x] + s[i..])
  {
    forall j | 0 <= j < i ensures !Less(x.name, s[j].name) {
      if j < i - 1 && Less(x.name, s[j].name) { NotAbove(x.name, s[j].name, s[i - 1].name); }
    }
    forall j | i <= j < |s| ensures !Less(s[j].name, x.name) {
      LessAsymmetric(x.name, s[j].name);
    }
  }

  /** classify's switch over one volume. */
  method Sort(v: Volume, cfg: Config, now: int) returns (tier: Tier)
    ensures InTier(v, cfg, now, tier)
  {
    var staleBefore := now - STALE_AGE;
    var lastActivity := v.lastUsed;
    if lastActivity == 0 {
      lastActivity := v.createdAt;
    }
    if |v.usedBy| > 0 {
      return Kept;
    }
    if cfg.keeps(v.name, v.project) {
      return Kept;
    }
    if v.bytes > cfg.cap {
      return Kept;
    }
    if !v.anonymous {
      return Named;
    }
    if lastActivity > staleBefore {
      return Kept;
    }
    return Anonymous;
  }

  function Into(t: Tiers, v: Volume, tier: Tier): Tiers {
    match tier
    case Named => t.(named := t.named + [v])
    case Anonymous => t.(anon := t.anon + [v])
    case Kept => t.(kept := t.kept + [v])
  }

  ghost predicate AllFrom(vs: seq<Volume>, t: Tiers) { From(vs, t.named) && From(vs, t.anon) && From(vs, t.kept) }

  lemma IntoKeeps(vs: seq<Volume>, i: nat, cfg: Config, now: int, t: Tiers, tier: Tier)
    requires i < |vs| && Partition(vs[..i], cfg, now, t) && InTier(vs[i], cfg, now, tier)
    ensures Partition(vs[..i + 1], cfg, now, Into(t, vs[i], tier))
  {
    assert vs[..i + 1] == vs[..i] + [vs[i]];
  }

  lemma IntoFrom(vs: seq<Volume>, i: nat, t: Tiers, tier: Tier)
    requires i < |vs| && ByNames(vs) && AllFrom(vs[..i], t)
    ensures AllFrom(vs[..i + 1], Into(t, vs[i], tier))
  {
    FromNext(vs, i, t.named);
    FromNext(vs, i, t.anon);
    FromNext(vs, i, t.kept);
  }

  /** classify, on the volumes. */
  method ClassifyVolumes(vs: seq<Volume>, cfg: Config, now: int) returns (t: Tiers)
    ensures Partition(vs, cfg, now, t)
    ensures ByNames(t.named) && ByNames(t.anon) && ByNames(t.kept)
  {
    var volumes := SortVolumes(vs);
    t := Tiers([], [], []);
    for i := 0 to |volumes|
      invariant Partition(volumes[..i], cfg, now, t) && AllFrom(volumes[..i], t)
    {
      var tier := Sort(volumes[i], cfg, now);
      IntoKeeps(volumes, i, cfg, now, t, tier);
      IntoFrom(volumes, i, t, tier);
      t := Into(t, volumes[i], tier);
    }
    assert volumes[..|volumes|] == volumes;
  }

  /** In name order, and all from among these. */
  ghost predicate From(vs: seq<Volume>, t: seq<Volume>) {
    ByNames(t) && forall v <- t :: v in vs
  }

  lemma FromNext(vs: seq<Volume>, i: nat, t: seq<Volume>)
    requires i < |vs| && ByNames(vs) && From(vs[..i], t)
    ensures From(vs[..i + 1], t) && From(vs[..i + 1], t + [vs[i]])
  {
    assert vs[..i + 1] == vs[..i] + [vs[i]];
    forall k | 0 <= k < |t| ensures !Less(vs[i].name, t[k].name) {
      assert t[k] in vs[..i];
    }
  }

  // ---- what is never offered ----

  /** A volume some container mounts, or docker counts links to, is kept. */
  lemma InUseIsKept(used: Volume, links: map<string, int>, v: Volume, cfg: Config, now: int)
    requires JoinedRight(used, links, v)
    requires used.usedBy != [] || (used.name in links && links[used.name] > 0)
    ensures !Unclaimed(v, cfg) && InTier(v, cfg, now, Kept)
  {
    if used.usedBy != [] { assert |multiset(v.usedBy)| == |multiset(used.usedBy)|; }
  }

  lemma {:induction false} MountedIsUsed(ms: seq<Mount>, m: Mount)
    requires m in ms
    ensures Users(ms, m.volume) != [] && Newest(ms, m.volume) >= m.at
  {
    var n := |ms| - 1;
    if ms[n] != m {
      assert ms == ms[..n] + [ms[n]];
      MountedIsUsed(ms[..n], m);
    }
  }

  /** What is offered is unreferenced, not on the keep list and within the cap. */
  lemma OfferedIsFree(vs: seq<Volume>, cfg: Config, now: int, t: Tiers, v: Volume)
    requires Partition(vs, cfg, now, t) && (v in t.named || v in t.anon)
    ensures v in vs && v.usedBy == [] && !cfg.keeps(v.name, v.project) && v.bytes <= cfg.cap
  {
    assert v in multiset(t.named) + multiset(t.anon) + multiset(t.kept);
  }

  /** What a scan derived for a key. */
  function Derived(vs: seq<Volume>, k: Key): nat {
    if vs == [] then 0 else if KeyOf(vs[|vs| - 1]) == k then vs[|vs| - 1].lastUsed else Derived(vs[..|vs| - 1], k)
  }

  function ScanOf(vs: seq<Volume>): Scan { map k | k in Keys(vs) :: Derived(vs, k) }

  lemma {:induction false} DerivedIs(vs: seq<Volume>, i: nat)
    requires DistinctKeys(vs) && i < |vs|
    ensures Derived(vs, KeyOf(vs[i])) == vs[i].lastUsed
  {
    if i < |vs| - 1 { DerivedIs(vs[..|vs| - 1], i); }
  }

  /** The merge in place is the one the scans are folded with. */
  lemma MergeIsMerged(before: seq<Volume>, after: seq<Volume>, l: Ledger, next: Ledger)
    requires DistinctKeys(before) && next.Keys == Keys(before) && Recorded(next, after)
    requires |after| == |before| && forall i | 0 <= i < |before| :: after[i] == Remembered(l, before[i])
    ensures next == Merged(l, ScanOf(before))
  {
    forall k | k in next.Keys ensures next[k] == Max(Derived(before, k), Known(l, k)) {
      KeyMerged(before, after, l, next, k);
    }
    MergedIs(before, l, next);
  }

  lemma MergedIs(before: seq<Volume>, l: Ledger, next: Ledger)
    requires next.Keys == Keys(before) && forall k <- next.Keys :: next[k] == Max(Derived(before, k), Known(l, k))
    ensures next == Merged(l, ScanOf(before))
  {
  }

  lemma KeyMerged(before: seq<Volume>, after: seq<Volume>, l: Ledger, next: Ledger, k: Key)
    requires DistinctKeys(before) && Recorded(next, after) && k in Keys(before) && k in next
    requires |after| == |before| && forall i | 0 <= i < |before| :: after[i] == Remembered(l, before[i])
    ensures next[k] == Max(Derived(before, k), Known(l, k))
  {
    var i := KeyAt(before, k);
    DerivedIs(before, i);
    assert KeyOf(after[i]) == k && next[KeyOf(after[i])] == after[i].lastUsed;
  }

  lemma KeyAt(vs: seq<Volume>, k: Key) returns (i: nat)
    requires k in Keys(vs)
    ensures i < |vs| && KeyOf(vs[i]) == k
  {
    var v :| v in vs && KeyOf(v) == k;
    i :| i < |vs| && vs[i] == v;
  }

  // ---- over many scans ----

  /** What docker reports at one scan; its volume names are distinct. */
  datatype Snapshot = Snapshot(volumes: seq<Volume>, containers: seq<Container>, links: map<string, int>)

  predicate DistinctNames(vs: seq<Volume>) {
    forall i, j | 0 <= i < j < |vs| :: vs[i].name != vs[j].name
  }

  ghost predicate Joins(s: Snapshot, joined: seq<Volume>) {
    |joined| == |s.volumes| && forall i | 0 <= i < |joined| ::
      JoinedRight(if IsNamed(s.volumes, i) then Used(s.volumes[i], Mounts(s.containers)) else s.volumes[i], s.links,
        joined[i])
  }

  /** One scan: the volumes joined with their mounts, then as new as the ledger
      remembers, and their tiers; ledger is what it leaves. */
  datatype Round = Round(snap: Snapshot, joined: seq<Volume>, volumes: seq<Volume>, ledger: Ledger, cfg: Config,
                         now: int, tiers: Tiers)

  ghost predicate RoundOk(l: Ledger, r: Round) {
    && DistinctNames(r.snap.volumes) && Joins(r.snap, r.joined)
    && |r.volumes| == |r.joined| && (forall i | 0 <= i < |r.joined| :: r.volumes[i] == Remembered(l, r.joined[i]))
    && r.ledger == Merged(l, ScanOf(r.joined))
    && Partition(r.volumes, r.cfg, r.now, r.tiers)
  }

  /** Scan after scan, from whatever ledger was saved before. */
  ghost predicate Rounds(l: Ledger, rs: seq<Round>) {
    forall i | 0 <= i < |rs| :: RoundOk(LedgerBefore(l, rs, i), rs[i])
  }

  function LedgerBefore(l: Ledger, rs: seq<Round>, i: nat): Ledger
    requires i < |rs|
  {
    if i == 0 then l else rs[i - 1].ledger
  }

  lemma JoinKeepsKeys(s: Snapshot, joined: seq<Volume>)
    requires Joins(s, joined)
    ensures forall i | 0 <= i < |joined| ::
      KeyOf(joined[i]) == KeyOf(s.volumes[i]) && joined[i].name == s.volumes[i].name
    ensures DistinctNames(s.volumes) ==> DistinctKeys(joined)
  {
  }

  /** One scan, from docker's report to the tiers. */
  method ScanVolumes(vols: array<Volume>, containers: seq<Container>, links: map<string, int>, l: Ledger, cfg: Config,
                     now: int)
    returns (tiers: Tiers, next: Ledger, ghost joined: seq<Volume>)
    requires DistinctNames(vols[..])
    modifies vols
    ensures RoundOk(l, Round(Snapshot(old(vols[..]), containers, links), joined, vols[..], next, cfg, now, tiers))
  {
    ghost var snap := Snapshot(vols[..], containers, links);
    JoinVolumeUsage(vols, containers, links);
    joined := vols[..];
    assert Joins(snap, joined);
    JoinKeepsKeys(snap, joined);
    next := Merge(vols, l);
    MergeIsMerged(joined, vols[..], l, next);
    tiers := ClassifyVolumes(vols[..], cfg, now);
  }

  lemma {:induction false} MountIn(cs: seq<Container>, c: Container, i: nat)
    requires c in cs && i < |c.volumes|
    ensures Mount(c.volumes[i], c.name, LastUse(c)) in Mounts(cs)
  {
    var n := |cs| - 1;
    if c == cs[n] {
      assert MountsOf(c)[i] in MountsOf(c);
    } else {
      assert cs == cs[..n] + [cs[n]];
      MountIn(cs[..n], c, i);
    }
  }

  lemma MountNames(c: Container, name: string) returns (i: nat)
    requires name in c.volumes
    ensures i < |c.volumes| && c.volumes[i] == name
  {
    i :| i < |c.volumes| && c.volumes[i] == name;
  }

  /** A container's use of a volume is in the ledger its scan leaves. */
  lemma MountRecorded(l: Ledger, r: Round, c: Container, k: Key)
    requires RoundOk(l, r) && c in r.snap.containers && k.name in c.volumes && k in Keys(r.snap.volumes)
    ensures k in r.ledger && r.ledger[k] >= LastUse(c)
  {
    var i := KeyAt(r.snap.volumes, k);
    JoinKeepsKeys(r.snap, r.joined);
    assert IsNamed(r.snap.volumes, i);
    var x := MountNames(c, k.name);
    MountIn(r.snap.containers, c, x);
    MountedIsUsed(Mounts(r.snap.containers), Mount(k.name, c.name, LastUse(c)));
    assert r.joined[i].lastUsed >= LastUse(c);
    DerivedIs(r.joined, i);
    assert r.joined[i] in r.joined && KeyOf(r.joined[i]) == k;
  }

  /** What a scan offers no container of it mounts, stopped ones included, and docker
      counts no link to. */
  lemma OfferedIsUnused(l: Ledger, r: Round, v: Volume)
    requires RoundOk(l, r) && (v in r.tiers.named || v in r.tiers.anon)
    ensures forall c <- r.snap.containers :: v.name !in c.volumes
    ensures v.name in r.snap.links ==> r.snap.links[v.name] <= 0
  {
    OfferedIsFree(r.volumes, r.cfg, r.now, r.tiers, v);
    var i :| 0 <= i < |r.volumes| && r.volumes[i] == v;
    JoinKeepsKeys(r.snap, r.joined);
    assert IsNamed(r.snap.volumes, i) && r.joined[i].usedBy == [] && r.joined[i].name == v.name;
    UnusedBefore(Used(r.snap.volumes[i], Mounts(r.snap.containers)), r.snap.links, r.joined[i]);
    forall c | c in r.snap.containers ensures v.name !in c.volumes {
      MountingUses(r.snap.containers, c, v.name);
    }
  }

  lemma UnusedBefore(used: Volume, links: map<string, int>, v: Volume)
    requires JoinedRight(used, links, v) && v.usedBy == []
    ensures used.usedBy == [] && (used.name in links ==> links[used.name] <= 0)
  {
    assert |multiset(used.usedBy)| == |used.usedBy| && |multiset(v.usedBy)| == 0;
  }

  lemma MountingUses(cs: seq<Container>, c: Container, name: string)
    requires c in cs
    ensures name in c.volumes ==> Users(Mounts(cs), name) != []
  {
    if name in c.volumes {
      var x := MountNames(c, name);
      MountIn(cs, c, x);
      MountedIsUsed(Mounts(cs), Mount(name, c.name, LastUse(c)));
    }
  }

  /** The uses each scan derived, before the ledger. */
  function Scans(rs: seq<Round>): (scans: seq<Scan>)
    ensures |scans| == |rs| && forall i | 0 <= i < |rs| :: scans[i] == ScanOf(rs[i].joined)
  {
    if rs == [] then [] else Scans(rs[..|rs| - 1]) + [ScanOf(rs[|rs| - 1].joined)]
  }

  /** Round i folds its scan into the ledger. */
  predicate FoldsAt(rs: seq<Round>, scans: seq<Scan>, i: nat)
    requires i < |rs| == |scans|
  {
    rs[i].ledger == Merged(LedgerBefore(map[], rs, i), scans[i]) && scans[i].Keys == Keys(rs[i].snap.volumes)
  }

  lemma RoundFolds(rs: seq<Round>, scans: seq<Scan>, i: nat)
    requires Rounds(map[], rs) && i < |rs| && scans == Scans(rs)
    ensures FoldsAt(rs, scans, i)
  {
    assert RoundOk(LedgerBefore(map[], rs, i), rs[i]);
    SameKeys(rs[i].snap, rs[i].joined);
  }

  lemma {:induction false} FoldedLedgers(rs: seq<Round>, scans: seq<Scan>, n: nat)
    requires n < |rs| == |scans| && forall i: nat | i < |rs| :: FoldsAt(rs, scans, i)
    ensures rs[n].ledger == LedgerAfter(scans, n + 1)
  {
    assert FoldsAt(rs, scans, n);
    if n > 0 { FoldedLedgers(rs, scans, n - 1); }
  }

  /** So over docker's reports themselves: the ledger holds of a volume that came with
      scan m and stayed the newest use any scan since derived, and nothing older. */
  lemma RoundsRemember(rs: seq<Round>, k: Key, m: nat, n: nat)
    requires Rounds(map[], rs) && m <= n < |rs|
    requires forall i | m <= i <= n :: k in Keys(rs[i].snap.volumes)
    requires m > 0 ==> k !in Keys(rs[m - 1].snap.volumes)
    ensures k in rs[n].ledger && rs[n].ledger[k] == NewestUse(Scans(rs), k, m, n + 1)
  {
    forall i: nat | i < |rs| ensures FoldsAt(rs, Scans(rs), i) { RoundFolds(rs, Scans(rs), i); }
    FoldsRemember(rs, Scans(rs), k, m, n);
  }

  lemma FoldsRemember(rs: seq<Round>, scans: seq<Scan>, k: Key, m: nat, n: nat)
    requires m <= n < |rs| == |scans| && forall i: nat | i < |rs| :: FoldsAt(rs, scans, i)
    requires forall i | m <= i <= n :: k in Keys(rs[i].snap.volumes)
    requires m > 0 ==> k !in Keys(rs[m - 1].snap.volumes)
    ensures k in rs[n].ledger && rs[n].ledger[k] == NewestUse(scans, k, m, n + 1)
  {
    FoldedLedgers(rs, scans, n);
    forall i | m <= i < n + 1 ensures k in scans[i] { assert FoldsAt(rs, scans, i); }
    assert m > 0 ==> FoldsAt(rs, scans, m - 1);
    LedgerRemembers(scans, k, m, n + 1);
  }

  lemma SameKeys(s: Snapshot, joined: seq<Volume>)
    requires Joins(s, joined)
    ensures Keys(joined) == Keys(s.volumes)
  {
    JoinKeepsKeys(s, joined);
    forall k ensures k in Keys(joined) <==> k in Keys(s.volumes) {
      if k in Keys(joined) { var i := KeyAt(joined, k); assert s.volumes[i] in s.volumes; }
      if k in Keys(s.volumes) { var i := KeyAt(s.volumes, k); assert joined[i] in joined; }
    }
  }

  /** What the ledger knows of a volume that is still there it goes on knowing. */
  lemma UseLasts(l: Ledger, rs: seq<Round>, k: Key, j: nat, n: nat)
    requires Rounds(l, rs) && j <= n < |rs| && k in rs[j].ledger
    requires forall i | j <= i <= n :: k in Keys(rs[i].snap.volumes)
    ensures k in rs[n].ledger && rs[n].ledger[k] >= rs[j].ledger[k]
  {
    forall i: nat | j < i <= n ensures Keeps(rs, k, i) { ScanKeeps(l, rs, k, i); }
    Rises(rs, k, j, n);
  }

  predicate Keeps(rs: seq<Round>, k: Key, i: nat)
    requires 0 < i < |rs|
  {
    k in rs[i - 1].ledger ==> k in rs[i].ledger && rs[i].ledger[k] >= rs[i - 1].ledger[k]
  }

  lemma ScanKeeps(l: Ledger, rs: seq<Round>, k: Key, i: nat)
    requires Rounds(l, rs) && 0 < i < |rs| && k in Keys(rs[i].snap.volumes)
    ensures Keeps(rs, k, i)
  {
    if k in rs[i - 1].ledger { StillKnown(LedgerBefore(l, rs, i), rs[i], k); }
  }

  lemma {:induction false} Rises(rs: seq<Round>, k: Key, j: nat, n: nat)
    requires j <= n < |rs| && k in rs[j].ledger && forall i: nat | j < i <= n :: Keeps(rs, k, i)
    ensures k in rs[n].ledger && rs[n].ledger[k] >= rs[j].ledger[k]
  {
    if j < n {
      Rises(rs, k, j, n - 1);
      assert Keeps(rs, k, n);
    }
  }

  lemma StillKnown(l: Ledger, r: Round, k: Key)
    requires RoundOk(l, r) && k in Keys(r.snap.volumes) && k in l
    ensures k in r.ledger && r.ledger[k] >= l[k]
  {
    var i := KeyAt(r.snap.volumes, k);
    JoinKeepsKeys(r.snap, r.joined);
    assert r.joined[i] in r.joined && KeyOf(r.joined[i]) == k;
  }

  /** A scan's volume is as new as the ledger that scan leaves. */
  lemma AsNewAsLedger(l: Ledger, r: Round, v: Volume)
    requires RoundOk(l, r) && v in r.volumes
    ensures KeyOf(v) in r.ledger && v.lastUsed == r.ledger[KeyOf(v)]
  {
    var i :| 0 <= i < |r.volumes| && r.volumes[i] == v;
    JoinKeepsKeys(r.snap, r.joined);
    DerivedIs(r.joined, i);
    assert r.joined[i] in r.joined && KeyOf(r.joined[i]) == KeyOf(v);
  }

  /** What is offered as anonymous has rested since the newest use its scan knows. */
  lemma OfferedRested(l: Ledger, r: Round, v: Volume)
    requires RoundOk(l, r) && v in r.tiers.anon
    ensures KeyOf(v) in r.ledger && (r.ledger[KeyOf(v)] == 0 || r.ledger[KeyOf(v)] + STALE_AGE <= r.now)
  {
    OfferedIsFree(r.volumes, r.cfg, r.now, r.tiers, v);
    AsNewAsLedger(l, r, v);
    assert InTier(v, r.cfg, r.now, Anonymous);
  }

  /** Over any series of scans: an anonymous volume there from scan j to scan n is
      offered at n only thirty days or more after a container that mounted it at j was
      created, and was last started, and last ended, though that container is long gone. */
  lemma AnonymousRests(l: Ledger, rs: seq<Round>, j: nat, n: nat, c: Container, v: Volume)
    requires Rounds(l, rs) && j <= n < |rs| && v in rs[n].tiers.anon
    requires c in rs[j].snap.containers && v.name in c.volumes
    requires forall i | j <= i <= n :: KeyOf(v) in Keys(rs[i].snap.volumes)
    ensures c.created == 0 || c.created + 30 * 86400 <= rs[n].now
    ensures c.startedAt == 0 || c.startedAt + 30 * 86400 <= rs[n].now
    ensures c.finishedAt == 0 || c.finishedAt + 30 * 86400 <= rs[n].now
  {
    RestsSinceUse(l, rs, j, n, c, v);
    LastUseIsNewest(c);
  }

  lemma RestsSinceUse(l: Ledger, rs: seq<Round>, j: nat, n: nat, c: Container, v: Volume)
    requires Rounds(l, rs) && j <= n < |rs| && v in rs[n].tiers.anon
    requires c in rs[j].snap.containers && v.name in c.volumes
    requires forall i | j <= i <= n :: KeyOf(v) in Keys(rs[i].snap.volumes)
    ensures LastUse(c) == 0 || LastUse(c) + STALE_AGE <= rs[n].now
  {
    MountRecorded(LedgerBefore(l, rs, j), rs[j], c, KeyOf(v));
    UseLasts(l, rs, KeyOf(v), j, n);
    OfferedRested(LedgerBefore(l, rs, n), rs[n], v);
  }

  // ---- one scan, said of docker's report alone ----

  ghost predicate Mounting(r: Round, c: Container, name: string) {
    c in r.snap.containers && name in c.volumes
  }

  /** Only links docker counts speak for the volume. */
  ghost predicate LinkedOnly(r: Round, was: Volume) {
    && was.usedBy == [] && (forall c <- r.snap.containers :: was.name !in c.volumes)
    && was.name in r.snap.links && r.snap.links[was.name] > 0
  }

  lemma {:induction false} MountFrom(cs: seq<Container>, m: Mount)
    ensures m in Mounts(cs) <==>
      exists c <- cs :: m.volume in c.volumes && m.container == c.name && m.at == LastUse(c)
  {
    if cs != [] {
      var n := |cs| - 1;
      MountFrom(cs[..n], m);
      assert forall c :: c in cs <==> c in cs[..n] || c == cs[n];
      if m.volume in cs[n].volumes && m.container == cs[n].name && m.at == LastUse(cs[n]) {
        var i := MountNames(cs[n], m.volume);
        assert MountsOf(cs[n])[i] == m;
      }
    }
  }

  lemma {:induction false} UserFrom(ms: seq<Mount>, name: string, who: string)
    ensures who in Users(ms, name) <==> exists m <- ms :: m.volume == name && m.container == who
  {
    if ms != [] {
      var n := |ms| - 1;
      UserFrom(ms[..n], name, who);
      assert forall m :: m in ms <==> m in ms[..n] || m == ms[n];
    }
  }

  lemma {:induction false} NewestWithin(ms: seq<Mount>, name: string, t: nat)
    ensures Newest(ms, name) <= t <==> forall m <- ms | m.volume == name :: m.at <= t
  {
    if ms != [] {
      var n := |ms| - 1;
      NewestWithin(ms[..n], name, t);
      assert forall m :: m in ms <==> m in ms[..n] || m == ms[n];
    }
  }

  /** A volume's users are the containers that mount it, running or not; when none is
      known and docker counts a link, an unknown one. All else docker said stays. */
  lemma UsersExactly(l: Ledger, r: Round, i: nat, who: string)
    requires RoundOk(l, r) && i < |r.volumes|
    ensures r.volumes[i] == r.snap.volumes[i].(usedBy := r.volumes[i].usedBy, lastUsed := r.volumes[i].lastUsed)
    ensures who in r.volumes[i].usedBy <==>
      || who in r.snap.volumes[i].usedBy
      || (exists c <- r.snap.containers :: c.name == who && r.snap.volumes[i].name in c.volumes)
      || (who == "(unknown container)" && LinkedOnly(r, r.snap.volumes[i]))
  {
    var was := r.snap.volumes[i];
    JoinAt(l, r, i);
    UserJoined(Used(was, Mounts(r.snap.containers)), r.snap.links, r.joined[i], who);
    UserMounts(r.snap.containers, was.name, who);
    NoUsers(r.snap.containers, was.name);
  }

  lemma JoinAt(l: Ledger, r: Round, i: nat)
    requires RoundOk(l, r) && i < |r.volumes|
    ensures |r.joined| == |r.snap.volumes| == |r.volumes| && r.volumes[i] == Remembered(l, r.joined[i])
    ensures JoinedRight(Used(r.snap.volumes[i], Mounts(r.snap.containers)), r.snap.links, r.joined[i])
  {
    assert IsNamed(r.snap.volumes, i);
  }

  lemma UserJoined(used: Volume, links: map<string, int>, v: Volume, who: string)
    requires JoinedRight(used, links, v)
    ensures who in v.usedBy <==>
      who in used.usedBy || (who == UNKNOWN && used.usedBy == [] && used.name in links && links[used.name] > 0)
  {
    assert who in v.usedBy <==> who in multiset(v.usedBy);
    assert who in used.usedBy <==> who in multiset(used.usedBy);
  }

  lemma UserMounts(cs: seq<Container>, name: string, who: string)
    ensures who in Users(Mounts(cs), name) <==> exists c <- cs :: c.name == who && name in c.volumes
  {
    UserFrom(Mounts(cs), name, who);
    if who in Users(Mounts(cs), name) {
      var m :| m in Mounts(cs) && m.volume == name && m.container == who;
      MountFrom(cs, m);
    }
    if c :| c in cs && c.name == who && name in c.volumes {
      var i := MountNames(c, name);
      MountIn(cs, c, i);
    }
  }

  lemma NoUsers(cs: seq<Container>, name: string)
    ensures Users(Mounts(cs), name) == [] <==> forall c <- cs :: name !in c.volumes
  {
    forall c <- cs ensures name in c.volumes ==> Users(Mounts(cs), name) != [] { MountingUses(cs, c, name); }
    var users := Users(Mounts(cs), name);
    if users != [] { UserMounts(cs, name, users[0]); }
  }

  /** A volume was last used at the newest of what docker said, the times of every
      container that mounts it, and what the ledger remembers of it. */
  lemma LastUsedExactly(l: Ledger, r: Round, i: nat, t: nat)
    requires RoundOk(l, r) && i < |r.volumes|
    ensures var was := r.snap.volumes[i];
      r.volumes[i].lastUsed <= t <==>
        && was.lastUsed <= t
        && (forall c | Mounting(r, c, was.name) :: c.created <= t && c.startedAt <= t && c.finishedAt <= t)
        && (Key(was.name, was.createdAt) in l ==> l[Key(was.name, was.createdAt)] <= t)
  {
    var was, cs := r.snap.volumes[i], r.snap.containers;
    JoinAt(l, r, i);
    NewestWithin(Mounts(cs), was.name, t);
    forall c | Mounting(r, c, was.name) ensures Newest(Mounts(cs), was.name) <= t ==> LastUse(c) <= t {
      var x := MountNames(c, was.name);
      MountIn(cs, c, x);
    }
    forall m | m in Mounts(cs) && m.volume == was.name
      ensures exists c :: Mounting(r, c, was.name) && m.at == LastUse(c)
    {
      MountFrom(cs, m);
      var c :| c in cs && m.volume in c.volumes && m.container == c.name && m.at == LastUse(c);
      assert Mounting(r, c, was.name);
    }
  }

  /** Unreferenced, not on the keep list, and within the cap. */
  ghost predicate FreeOf(v: Volume, cfg: Config) {
    v.usedBy == [] && !cfg.keeps(v.name, v.project) && v.bytes <= cfg.cap
  }

  /** What is offered, and what is not, of every volume there is. */
  lemma OfferedExactly(l: Ledger, r: Round, v: Volume)
    requires RoundOk(l, r) && v in r.volumes
    ensures v in r.tiers.named <==> FreeOf(v, r.cfg) && !v.anonymous
    ensures v in r.tiers.anon <==>
      && FreeOf(v, r.cfg) && v.anonymous
      && (if v.lastUsed == 0 then v.createdAt + 30 * 86400 <= r.now else v.lastUsed + 30 * 86400 <= r.now)
    ensures v in r.tiers.kept <==> v !in r.tiers.named && v !in r.tiers.anon
  {
    assert v in multiset(r.tiers.named) + multiset(r.tiers.anon) + multiset(r.tiers.kept);
    assert v in r.tiers.named ==> InTier(v, r.cfg, r.now, Named);
    assert v in r.tiers.anon ==> InTier(v, r.cfg, r.now, Anonymous);
    assert v in r.tiers.kept ==> InTier(v, r.cfg, r.now, Kept);
  }

  /** The ledger a scan leaves holds the volumes there are, each with its last use. */
  lemma LedgerExactly(l: Ledger, r: Round)
    requires RoundOk(l, r)
    ensures forall name, at ::
      Key(name, at) in r.ledger <==> exists v <- r.snap.volumes :: v.name == name && v.createdAt == at
    ensures forall v <- r.volumes ::
      Key(v.name, v.createdAt) in r.ledger && r.ledger[Key(v.name, v.createdAt)] == v.lastUsed
  {
    SameKeys(r.snap, r.joined);
    forall name, at
      ensures Key(name, at) in r.ledger <==> exists v <- r.snap.volumes :: v.name == name && v.createdAt == at
    {
      if v :| v in r.snap.volumes && v.name == name && v.createdAt == at {
        assert KeyOf(v) in Keys(r.snap.volumes);
      }
    }
    forall v | v in r.volumes ensures KeyOf(v) in r.ledger && r.ledger[KeyOf(v)] == v.lastUsed {
      AsNewAsLedger(l, r, v);
    }
  }
}
