// What a plan may hold, and why it leaves the rest out, said of the atoms, rules
// and items alone: internal/engine/plan.go, lines 345 to 545 and 650 to 663, and
// internal/trash/guard.go.
module PlanRules {
  import opened Paths
  import opened Catalog
  import opened Forest
  import opened Selection
  import opened Nesting
  import opened Planner

  // ---- what was asked for ----

  predicate Chosen(selected: map<string, bool>, atom: string) {
    atom in selected && selected[atom]
  }

  /** The item's rule was selected, or the item itself. */
  predicate Asked(selected: map<string, bool>, rule: Rule, it: Item) {
    '/' !in rule.id
    && (Chosen(selected, rule.id) || (it.key != "" && Chosen(selected, rule.id + "/" + it.key)))
  }

  /** The rule was selected, or an item under its id. */
  ghost predicate RuleAsked(selected: map<string, bool>, id: string) {
    '/' !in id && (Chosen(selected, id) || exists key: string :: Chosen(selected, id + "/" + key))
  }

  predicate AllAsked(selected: map<string, bool>, f: Finding) {
    forall it <- f.items :: Asked(selected, f.rule, it)
  }

  // ---- what may go ----

  /** One command for all of a rule's items. */
  predicate AtOnce(rule: Rule) {
    rule.native.Some? && !rule.native.value.usesPath && !rule.native.value.usesArg
  }

  /** Absolute; not the root or a folder in it, not a volume, not the home, however it is spelled. */
  ghost predicate SafePath(path: string, home: string) {
    && path != "" && path[0] == '/'
    && Clean(path).comps != []
    && (forall c :: Clean(path).comps != [c])
    && (forall c :: Clean(path).comps != ["Volumes", c])
    && (home != "" ==> Clean(path) != Clean(home))
  }

  /** The item of c is only ever reported, and it lies where r's does or deeper. */
  ghost predicate HoldsIt(fs: seq<Finding>, r: Ref, c: Ref) {
    && ValidRef(fs, r) && ValidRef(fs, c)
    && fs[c.finding].rule.risk == SurfaceOnly
    && fs[r.finding].items[r.item].path != "" && fs[c.finding].items[c.item].path != ""
    && Contains(Clean(fs[r.finding].items[r.item].path), Clean(fs[c.finding].items[c.item].path))
  }

  ghost predicate HoldsSome(fs: seq<Finding>, r: Ref) {
    exists c :: HoldsIt(fs, r, c)
  }

  /** What the rule's command, or the move to the Trash, needs of the item is there. */
  predicate Filled(rule: Rule, it: Item) {
    && (rule.native.None? ==> it.path != "")
    && (rule.native.Some? && rule.native.value.usesPath ==> it.path != "")
    && (rule.native.Some? && rule.native.value.usesArg ==> it.arg != "")
  }

  ghost predicate Ready(fs: seq<Finding>, home: string, r: Ref)
    requires ValidRef(fs, r)
  {
    var it := fs[r.finding].items[r.item];
    Filled(fs[r.finding].rule, it) && (it.path != "" ==> SafePath(it.path, home)) && !HoldsSome(fs, r)
  }

  predicate CommandFound(opts: Options, rule: Rule)
    requires rule.native.Some?
  {
    opts.found.None? || rule.native.value.program in opts.found.value
  }

  predicate CanRun(opts: Options, rule: Rule) {
    rule.native.Some? ==> CommandFound(opts, rule) && !(opts.noSudo && rule.sudo)
  }

  /** The item may be deleted: on its own, or with all of its rule's others. */
  ghost predicate MayGo(selected: map<string, bool>, fs: seq<Finding>, home: string, opts: Options, r: Ref)
    requires ValidRef(fs, r)
  {
    var f := fs[r.finding];
    && Asked(selected, f.rule, f.items[r.item]) && f.rule.risk != SurfaceOnly && CanRun(opts, f.rule)
    && (if AtOnce(f.rule)
        then AllAsked(selected, f) && forall i | 0 <= i < |f.items| :: !HoldsSome(fs, Ref(r.finding, i))
        else Ready(fs, home, r))
  }

  // ---- the plan's own words for it ----

  lemma SafePathExactly(path: string, home: string)
    ensures GuardPath(path, home) <==> SafePath(path, home)
  {
    var c := Clean(path).comps;
    if |c| == 1 { assert c == [c[0]]; }
    if |c| == 2 && c[0] == "Volumes" { assert c == ["Volumes", c[1]]; }
  }

  lemma HoldsExactly(fs: seq<Finding>, r: Ref)
    requires ValidRef(fs, r)
    ensures NoConflict(fs, PathsOf(fs), r) <==> !HoldsSome(fs, r)
    ensures forall c :: Conflicts(fs, PathsOf(fs), r, c) <==> HoldsIt(fs, r, c)
  {
    var ps := PathsOf(fs);
    forall c ensures Conflicts(fs, ps, r, c) <==> HoldsIt(fs, r, c) {
      assert c in ps <==> ValidRef(fs, c) && fs[c.finding].items[c.item].path != "";
    }
    if !NoConflict(fs, ps, r) {
      var c :| c in ps && SurfaceOnlyItem(fs, c) && r in ps && Contains(ps[r], ps[c]);
      assert HoldsIt(fs, r, c);
    }
    if c :| HoldsIt(fs, r, c) {
      assert Conflicts(fs, ps, r, c);
    }
  }

  lemma AskedExactly(selected: map<string, bool>, fs: seq<Finding>, r: Ref)
    requires ValidRef(fs, r)
    ensures r in PickedRefs(selected, fs) <==> Asked(selected, fs[r.finding].rule, fs[r.finding].items[r.item])
  {
  }

  lemma RuleAskedExactly(selected: map<string, bool>, id: string)
    ensures Engaged(selected, id) <==> RuleAsked(selected, id)
  {
    if key :| On(selected, ItemID(id, key)) { assert Chosen(selected, id + "/" + key); }
    if key: string :| Chosen(selected, id + "/" + key) { assert On(selected, ItemID(id, key)); }
  }

  lemma AllAskedExactly(selected: map<string, bool>, fs: seq<Finding>, fi: nat)
    requires fi < |fs|
    ensures AllPicked(fs, PickedRefs(selected, fs), fi) <==> AllAsked(selected, fs[fi])
  {
    var items := fs[fi].items;
    forall i | 0 <= i < |items|
      ensures Ref(fi, i) in PickedRefs(selected, fs) <==> Asked(selected, fs[fi].rule, items[i])
    {
      AskedExactly(selected, fs, Ref(fi, i));
    }
    if AllPicked(fs, PickedRefs(selected, fs), fi) {
      forall it <- items ensures Asked(selected, fs[fi].rule, it) {
        var i :| 0 <= i < |items| && items[i] == it;
        assert Ref(fi, i) in PickedRefs(selected, fs);
      }
    }
  }

  lemma ReadyExactly(fs: seq<Finding>, home: string, r: Ref)
    requires ValidRef(fs, r)
    ensures ItemOk(fs, PathsOf(fs), home, r) <==> Ready(fs, home, r)
  {
    SafePathExactly(fs[r.finding].items[r.item].path, home);
    HoldsExactly(fs, r);
  }

  lemma CanRunExactly(opts: Options, rule: Rule)
    ensures Refused(opts, rule) <==> !CanRun(opts, rule)
  {
  }

  lemma MayGoExactly(selected: map<string, bool>, fs: seq<Finding>, home: string, opts: Options, r: Ref)
    requires ValidRef(fs, r)
    ensures Plannable(fs, PathsOf(fs), home, opts, PickedRefs(selected, fs), r) <==>
      MayGo(selected, fs, home, opts, r)
  {
    AskedExactly(selected, fs, r);
    AllAskedExactly(selected, fs, r.finding);
    CanRunExactly(opts, fs[r.finding].rule);
    ReadyExactly(fs, home, r);
    forall i | 0 <= i < |fs[r.finding].items|
      ensures NoConflict(fs, PathsOf(fs), Ref(r.finding, i)) <==> !HoldsSome(fs, Ref(r.finding, i))
    {
      HoldsExactly(fs, Ref(r.finding, i));
    }
  }

  // ---- every plan of a selection ----

  /** What BuildPlan promises of the plan it returns. */
  ghost predicate PlanOf(selected: map<string, bool>, fs: seq<Finding>, home: string, opts: Options, plan: Plan) {
    PlanOk(fs, PathsOf(fs), home, opts, PickedRefs(selected, fs), EngagedRules(selected, fs), plan)
  }

  /** What each action is comes from its rule and its item, and nothing else. */
  ghost predicate ActionOf(f: Finding, d: Draft, r: Ref)
    requires r.item < |f.items|
  {
    var rule, it, a := f.rule, f.items[r.item], d.action;
    && a.ruleID == rule.id && a.preAction == rule.preAction
    && a.kind == (if rule.native.None? then TrashKind else NativeKind)
    && a.measure == (if rule.native.None? then "" else rule.measure)
    && a.sudo == (rule.native.Some? && rule.sudo)
    && a.emptiesTrash == (AtOnce(rule) && rule.emptiesTrash)
    && a.itemKey == (if AtOnce(rule) then "" else it.key)
    && a.path == (if AtOnce(rule) then "" else it.path)
  }

  /** The action of a plan is its rule's, and deletes the one item, or for a
      command that runs once all of the rule's. */
  lemma ActionComesFrom(selected: map<string, bool>, fs: seq<Finding>, home: string, opts: Options, plan: Plan,
                        d: Draft, r: Ref)
    requires PlanOf(selected, fs, home, opts, plan) && d in plan.drafts && r in d.items
    ensures ValidRef(fs, r) && ActionOf(fs[r.finding], d, r)
    ensures forall q :: q in d.items <==>
      q == r || (AtOnce(fs[r.finding].rule) && q.finding == r.finding && ValidRef(fs, q))
  {
    SafeIn(fs, PathsOf(fs), home, opts, PickedRefs(selected, fs), EngagedRules(selected, fs), plan, d);
    ActionOfSound(fs, PathsOf(fs), home, opts, d.items[0].finding, d, r);
  }

  lemma SafeIn(fs: seq<Finding>, ps: PathMap, home: string, opts: Options, picked: set<Ref>, engaged: set<nat>,
               plan: Plan, d: Draft)
    requires PlanOk(fs, ps, home, opts, picked, engaged, plan) && d in plan.drafts
    ensures SafeDraft(fs, ps, home, opts, picked, d)
  {
  }

  lemma ActionOfSound(fs: seq<Finding>, ps: PathMap, home: string, opts: Options, fi: nat, d: Draft, r: Ref)
    requires Sound(fs, ps, home, opts, fi, Unsettled(d)) && r in d.items
    ensures ValidRef(fs, r) && r.finding == fi && ActionOf(fs[fi], d, r)
    ensures forall q :: q in d.items <==> q == r || (AtOnce(fs[fi].rule) && q.finding == fi && ValidRef(fs, q))
  {
    if AtOnce(fs[fi].rule) {
      forall q: Ref | q.finding == fi && ValidRef(fs, q) ensures q in d.items { assert Ref(fi, q.item) == q; }
    } else {
      assert d.items == [r];
    }
  }

  /** An action of one item counts its bytes: no other action's item holds it. */
  lemma OneItemBytes(selected: map<string, bool>, fs: seq<Finding>, home: string, opts: Options, plan: Plan, d: Draft,
                     r: Ref)
    requires PlanOf(selected, fs, home, opts, plan) && d in plan.drafts && d.items == [r]
    ensures ValidRef(fs, r) && d.action.bytes == fs[r.finding].items[r.item].bytes
    ensures forall x | x in Targets(plan) && InPathOf(fs, x, r) :: PathOf(fs, r) == PathOf(fs, x) && RefLess(r, x)
  {
    CountedIn(fs, PathsOf(fs), home, opts, PickedRefs(selected, fs), EngagedRules(selected, fs), plan, d);
    OneCounted(fs, Targets(plan), d, r);
  }

  lemma CountedIn(fs: seq<Finding>, ps: PathMap, home: string, opts: Options, picked: set<Ref>, engaged: set<nat>,
                  plan: Plan, d: Draft)
    requires PlanOk(fs, ps, home, opts, picked, engaged, plan) && d in plan.drafts
    ensures Counted(fs, ps, Targets(plan), d)
  {
  }

  lemma OneCounted(fs: seq<Finding>, targets: set<Ref>, d: Draft, r: Ref)
    requires Counted(fs, PathsOf(fs), targets, d) && d.items == [r]
    ensures ValidRef(fs, r) && d.action.bytes == fs[r.finding].items[r.item].bytes
    ensures forall x | x in targets && InPathOf(fs, x, r) :: PathOf(fs, r) == PathOf(fs, x) && RefLess(r, x)
  {
    var ps := PathsOf(fs);
    assert d.items[..0] == [] && !Covered(ps, targets, r);
    assert UncoveredBytes(fs, ps, targets, []) == 0;
    forall x | x in targets && InPathOf(fs, x, r) ensures PathOf(fs, r) == PathOf(fs, x) && RefLess(r, x) {
      assert !Above(ps, x, r) && x in ps && r in ps;
    }
  }

  /** Nothing is moved to the Trash before an action whose rule empties it. */
  lemma EmptiesFirst(selected: map<string, bool>, fs: seq<Finding>, home: string, opts: Options, plan: Plan,
                     i: nat, j: nat, x: Ref, y: Ref)
    requires PlanOf(selected, fs, home, opts, plan)
    requires i < j < |plan.drafts| && x in plan.drafts[i].items && y in plan.drafts[j].items
    requires ValidRef(fs, x) && ValidRef(fs, y) && AtOnce(fs[y.finding].rule) && fs[y.finding].rule.emptiesTrash
    ensures fs[x.finding].rule.native.Some? && fs[x.finding].rule.emptiesTrash && x.finding < y.finding
    ensures plan.drafts[i].action.kind != TrashKind
  {
    ActionComesFrom(selected, fs, home, opts, plan, plan.drafts[i], x);
    ActionComesFrom(selected, fs, home, opts, plan, plan.drafts[j], y);
    InOrderOf(selected, fs, home, opts, plan, plan.drafts[i], x);
    InOrderOf(selected, fs, home, opts, plan, plan.drafts[j], y);
    SameFinding(plan, fs, i, j, x, y);
  }

  lemma InOrderOf(selected: map<string, bool>, fs: seq<Finding>, home: string, opts: Options, plan: Plan, d: Draft,
                  r: Ref)
    requires PlanOf(selected, fs, home, opts, plan) && d in plan.drafts && r in d.items
    ensures d.items != [] && d.items[0].finding == r.finding
  {
    SafeIn(fs, PathsOf(fs), home, opts, PickedRefs(selected, fs), EngagedRules(selected, fs), plan, d);
  }

  lemma SameFinding(plan: Plan, fs: seq<Finding>, i: nat, j: nat, x: Ref, y: Ref)
    requires i < j < |plan.drafts| && Arranged(plan.drafts) && NoneShared(plan.drafts)
    requires plan.drafts[i].action.emptiesTrash == plan.drafts[j].action.emptiesTrash ==>
      plan.drafts[i].items != [] && plan.drafts[j].items != []
    requires plan.drafts[i].items != [] ==> plan.drafts[i].items[0].finding == x.finding
    requires plan.drafts[j].items != [] ==> plan.drafts[j].items[0].finding == y.finding
    requires x in plan.drafts[i].items && y in plan.drafts[j].items
    requires plan.drafts[j].action.emptiesTrash
    requires ValidRef(fs, x) && forall q ::
      q in plan.drafts[j].items <==> q == y || (q.finding == y.finding && ValidRef(fs, q))
    ensures plan.drafts[i].action.emptiesTrash && x.finding < y.finding
  {
    assert Before(plan.drafts[i], plan.drafts[j]);
  }

  /** What a plan deletes may go; what may go is deleted, or lies in what is. */
  lemma DeletesWhatMayGo(selected: map<string, bool>, fs: seq<Finding>, home: string, opts: Options, plan: Plan,
                         r: Ref)
    requires PlanOf(selected, fs, home, opts, plan) && ValidRef(fs, r)
    ensures r in Targets(plan) ==> MayGo(selected, fs, home, opts, r)
    ensures MayGo(selected, fs, home, opts, r) ==> r in Targets(plan) || exists x <- Targets(plan) :: InPathOf(fs, x, r)
  {
    var ps, picked := PathsOf(fs), PickedRefs(selected, fs);
    MayGoExactly(selected, fs, home, opts, r);
    if MayGo(selected, fs, home, opts, r) {
      WantedIsDeleted(fs, ps, home, opts, picked, EngagedRules(selected, fs), plan, r);
      if r !in Targets(plan) {
        var x :| x in Targets(plan) && Above(ps, x, r);
        AboveIsIn(fs, x, r);
      }
    }
  }

  /** r's item lies at x's path or inside it. */
  ghost predicate InPathOf(fs: seq<Finding>, x: Ref, r: Ref) {
    && ValidRef(fs, x) && ValidRef(fs, r) && x != r
    && fs[x.finding].items[x.item].path != "" && fs[r.finding].items[r.item].path != ""
    && Contains(Clean(fs[x.finding].items[x.item].path), Clean(fs[r.finding].items[r.item].path))
  }

  lemma AboveIsIn(fs: seq<Finding>, x: Ref, r: Ref)
    requires Above(PathsOf(fs), x, r)
    ensures InPathOf(fs, x, r)
  {
  }

  // ---- what goes along ----

  /** m's path lies strictly between r's and c's. */
  ghost predicate Between(fs: seq<Finding>, r: Ref, m: Ref, c: Ref) {
    && InPathOf(fs, r, m) && InPathOf(fs, m, c)
    && PathOf(fs, r) != PathOf(fs, m) && PathOf(fs, m) != PathOf(fs, c)
  }

  /** What an action says goes along is not to be deleted itself, and lies at the path of one
      of its items or inside it, with nothing between but what is deleted too. */
  lemma IncludedGoesAlong(selected: map<string, bool>, fs: seq<Finding>, home: string, opts: Options, plan: Plan,
                          d: Draft, c: Ref) returns (r: Ref)
    requires PlanOf(selected, fs, home, opts, plan) && d in plan.drafts && c in d.action.includes
    ensures r in d.items && InPathOf(fs, r, c) && !MayGo(selected, fs, home, opts, c)
    ensures forall m | Between(fs, r, m, c) :: MayGo(selected, fs, home, opts, m)
  {
    var ps, picked := PathsOf(fs), PickedRefs(selected, fs);
    var wanted := Wanted(fs, ps, home, opts, picked);
    assert IncludesRight(ps, wanted, d.items, d.action.includes);
    r :| r in d.items && !Covered(ps, wanted, r) && GoesAlong(ps, wanted, r, c);
    AlongIsIn(fs, wanted, r, c);
    WantedExactly(selected, fs, home, opts, c);
    forall m | Between(fs, r, m, c) ensures MayGo(selected, fs, home, opts, m) {
      BetweenIsWanted(fs, wanted, r, m, c);
      WantedExactly(selected, fs, home, opts, m);
    }
  }

  lemma WantedExactly(selected: map<string, bool>, fs: seq<Finding>, home: string, opts: Options, r: Ref)
    requires ValidRef(fs, r)
    ensures r in Wanted(fs, PathsOf(fs), home, opts, PickedRefs(selected, fs)) <==> MayGo(selected, fs, home, opts, r)
  {
    MayGoExactly(selected, fs, home, opts, r);
  }

  lemma AlongIsIn(fs: seq<Finding>, wanted: set<Ref>, r: Ref, c: Ref)
    requires GoesAlong(PathsOf(fs), wanted, r, c)
    ensures InPathOf(fs, r, c) && c !in wanted
  {
    if Above(PathsOf(fs), r, c) { AboveIsIn(fs, r, c); } else { AboveIsIn(fs, c, r); }
  }

  lemma BetweenIsWanted(fs: seq<Finding>, wanted: set<Ref>, r: Ref, m: Ref, c: Ref)
    requires GoesAlong(PathsOf(fs), wanted, r, c) && Between(fs, r, m, c)
    ensures m in wanted
  {
    var ps := PathsOf(fs);
    assert r in ps && m in ps && c in ps && ps[r] != ps[m] && ps[m] != ps[c];
    assert Above(ps, r, m) && Above(ps, m, c) && ps[r].comps < ps[m].comps < ps[c].comps;
  }

  /** And all that deleting a target takes along, unasked, is said: by some action, as itself
      or as what it lies in. */
  lemma AlongIsIncluded(selected: map<string, bool>, fs: seq<Finding>, home: string, opts: Options, plan: Plan,
                        r: Ref, c: Ref) returns (d: Draft, m: Ref)
    requires PlanOf(selected, fs, home, opts, plan) && r in Targets(plan) && InPathOf(fs, r, c)
    requires !MayGo(selected, fs, home, opts, c)
    ensures d in plan.drafts && m in d.action.includes && (m == c || InPathOf(fs, m, c))
  {
    var ps, picked := PathsOf(fs), PickedRefs(selected, fs);
    var wanted := Wanted(fs, ps, home, opts, picked);
    WantedExactly(selected, fs, home, opts, c);
    var top := r;
    if Covered(ps, wanted, r) { top := TopmostPlanned(ps, wanted, r); }
    TopIsTarget(fs, ps, wanted, plan, top);
    assert c in ps && ps[top].rooted == ps[c].rooted && Contains(ps[top], ps[c]) by { TopHolds(fs, r, top, c); }
    m := FirstAlong(ps, wanted, top, c);
    d :| d in plan.drafts && top in d.items;
    assert IncludesRight(ps, wanted, d.items, d.action.includes);
    if m != c { AboveIsIn(fs, m, c); }
  }

  lemma TopHolds(fs: seq<Finding>, r: Ref, top: Ref, c: Ref)
    requires InPathOf(fs, r, c) && (top == r || Above(PathsOf(fs), top, r))
    ensures var ps := PathsOf(fs); c in ps && top in ps && Contains(ps[top], ps[c])
  {
  }

  /** A wanted item nothing wanted holds is a target. */
  lemma TopIsTarget(fs: seq<Finding>, ps: PathMap, wanted: set<Ref>, plan: Plan, top: Ref)
    requires TargetsExact(fs, ps, wanted, plan) && (forall x <- wanted :: ValidRef(fs, x))
    requires top in Targets(plan) || (top in wanted && !Covered(ps, wanted, top))
    ensures top in Targets(plan)
  {
    if top in wanted && Whole(RuleOf(fs, top)) { assert Ref(top.finding, top.item) == top; }
  }

  /** Going down to c, the first that is not wanted. */
  lemma FirstAlong(ps: PathMap, wanted: set<Ref>, top: Ref, c: Ref) returns (m: Ref)
    requires top in ps && c in ps && top in wanted && c !in wanted && Contains(ps[top], ps[c])
    ensures GoesAlong(ps, wanted, top, m) && (m == c || Above(ps, m, c))
    decreases Depth(ps, c), c.finding, c.item
  {
    if Above(ps, c, top) {
      assert |ps[c].comps| == |ps[top].comps|;
      m := c;
    } else if k :| Above(ps, top, k) && Above(ps, k, c) && k !in wanted {
      AboveDescends(ps, k, c);
      m := FirstAlong(ps, wanted, top, k);
      if m != k { AboveTransitive(ps, m, k, c); }
    } else {
      m := c;
    }
  }

  // ---- why the rest is left out ----

  /** The skip is for the item, or with the empty key for its rule. */
  predicate For(s: Skip, rule: Rule, key: string) {
    s.ruleID == rule.id && s.itemKey == key
  }

  /** Why r, asked for and deletable as rules go, is left out, the first reason that applies. */
  ghost predicate ReasonFor(selected: map<string, bool>, fs: seq<Finding>, home: string, opts: Options, r: Ref, s: Skip)
    requires ValidRef(fs, r)
  {
    var f, it := fs[r.finding], fs[r.finding].items[r.item];
    var rule := f.rule;
    var guarded := it.path != "" && !SafePath(it.path, home);
    Asked(selected, rule, it) && rule.risk != SurfaceOnly &&
    match s.reason
    case NoPath => For(s, rule, it.key) && rule.native.None? && it.path == ""
    case NoValue =>
      For(s, rule, it.key) && rule.native.Some?
      && ((rule.native.value.usesPath && it.path == "") || (rule.native.value.usesArg && it.arg == ""))
    case GuardedPath => For(s, rule, it.key) && !AtOnce(rule) && Filled(rule, it) && guarded
    case HoldsSurfaceOnly(id) =>
      && For(s, rule, if AtOnce(rule) then "" else it.key)
      && (if AtOnce(rule) then AllAsked(selected, f) else Filled(rule, it) && !guarded)
      && exists q: Ref, c: Ref | HoldsIt(fs, q, c) ::
           id == NameOf(fs, c) && (q == r || (AtOnce(rule) && q.finding == r.finding))
    case WholeRuleOnly => For(s, rule, "") && AtOnce(rule) && !AllAsked(selected, f)
    case NotOnPath(program) =>
      && For(s, rule, if AllAsked(selected, f) then "" else it.key) && rule.native.Some?
      && program == rule.native.value.program && !CommandFound(opts, rule)
    case NeedsAdmin(selector) =>
      && For(s, rule, if AllAsked(selected, f) then "" else it.key) && rule.native.Some?
      && selector == (if AllAsked(selected, f) then rule.id else rule.id + "/" + it.key)
      && CommandFound(opts, rule) && opts.noSudo && rule.sudo
    case _ => false
  }

  function NameOf(fs: seq<Finding>, c: Ref): string
    requires ValidRef(fs, c)
  {
    fs[c.finding].rule.id + "/" + fs[c.finding].items[c.item].key
  }

  /** An asked-for rule that is only ever reported, with what holds it when something does. */
  ghost predicate ReportFor(selected: map<string, bool>, fs: seq<Finding>, fi: nat, s: Skip) {
    && fi < |fs| && fs[fi].rule.risk == SurfaceOnly && RuleAsked(selected, fs[fi].rule.id)
    && For(s, fs[fi].rule, "")
    && s.reason == (if fs[fi].held == "" then ReportOnly else HeldBy(fs[fi].held))
  }

  /** Something the plan deletes, an asked-for item of the skip's rule lies inside of. */
  ghost predicate InsideFor(selected: map<string, bool>, fs: seq<Finding>, plan: Plan, x: Ref, r: Ref, s: Skip) {
    && x in Targets(plan) && InPathOf(fs, x, r)
    && Asked(selected, fs[r.finding].rule, fs[r.finding].items[r.item])
    && s.ruleID == fs[r.finding].rule.id && s.reason == Inside(NameOf(fs, x))
  }

  ghost predicate Told(selected: map<string, bool>, fs: seq<Finding>, home: string, opts: Options, plan: Plan,
                       s: Skip) {
    || (exists fi: nat :: ReportFor(selected, fs, fi, s))
    || (exists r :: ValidRef(fs, r) && ReasonFor(selected, fs, home, opts, r, s))
    || (exists x, r :: InsideFor(selected, fs, plan, x, r, s))
  }

  /** Every skip of a plan says what is so. */
  lemma SkipsAreSo(selected: map<string, bool>, fs: seq<Finding>, home: string, opts: Options, plan: Plan, s: Skip)
    requires PlanOf(selected, fs, home, opts, plan) && s in plan.skipped
    ensures Told(selected, fs, home, opts, plan, s)
  {
    var picked, engaged := PickedRefs(selected, fs), EngagedRules(selected, fs);
    SkipHolds(fs, PathsOf(fs), home, opts, picked, engaged, plan, s);
    if Justified(fs, PathsOf(fs), home, opts, picked, engaged, s) {
      JustifiedIsSo(selected, fs, home, opts, plan, s);
    } else {
      InsideIsSo(selected, fs, home, opts, plan, s);
    }
  }

  lemma SkipHolds(fs: seq<Finding>, ps: PathMap, home: string, opts: Options, picked: set<Ref>, engaged: set<nat>,
                  plan: Plan, s: Skip)
    requires PlanOk(fs, ps, home, opts, picked, engaged, plan) && s in plan.skipped
    ensures Justified(fs, ps, home, opts, picked, engaged, s) || InsideHolds(fs, ps, picked, plan, s)
  {
  }

  lemma JustifiedIsSo(selected: map<string, bool>, fs: seq<Finding>, home: string, opts: Options, plan: Plan, s: Skip)
    requires Justified(fs, PathsOf(fs), home, opts, PickedRefs(selected, fs), EngagedRules(selected, fs), s)
    ensures Told(selected, fs, home, opts, plan, s)
  {
    var picked, engaged := PickedRefs(selected, fs), EngagedRules(selected, fs);
    if fi :| fi in engaged && fi < |fs| && !fs[fi].rule.risk.Actionable() && s == Reported(fs[fi]) {
      RuleAskedExactly(selected, fs[fi].rule.id);
      assert ReportFor(selected, fs, fi, s);
    } else {
      var r :| SkippedFor(fs, PathsOf(fs), home, opts, picked, r, s);
      SkippedIsSo(selected, fs, home, opts, r, s);
    }
  }

  lemma InsideIsSo(selected: map<string, bool>, fs: seq<Finding>, home: string, opts: Options, plan: Plan, s: Skip)
    requires InsideHolds(fs, PathsOf(fs), PickedRefs(selected, fs), plan, s)
    ensures Told(selected, fs, home, opts, plan, s)
  {
    var x, r :| NamesCover(fs, PathsOf(fs), PickedRefs(selected, fs), plan, s, x, r);
    AskedExactly(selected, fs, r);
    AboveIsIn(fs, x, r);
    assert InsideFor(selected, fs, plan, x, r, s);
  }

  lemma SkippedIsSo(selected: map<string, bool>, fs: seq<Finding>, home: string, opts: Options, r: Ref, s: Skip)
    requires SkippedFor(fs, PathsOf(fs), home, opts, PickedRefs(selected, fs), r, s)
    ensures ValidRef(fs, r) && ReasonFor(selected, fs, home, opts, r, s)
  {
    var rule, it := fs[r.finding].rule, fs[r.finding].items[r.item];
    AskedExactly(selected, fs, r);
    AllAskedExactly(selected, fs, r.finding);
    if !Whole(rule) && SkippedItem(fs, PathsOf(fs), home, r, s) {
      ItemReasonIsSo(fs, home, r, s.reason);
    } else if Whole(rule) && s.itemKey == ""
      && WholeReason(fs, PathsOf(fs), PickedRefs(selected, fs), r.finding, s.reason) {
      WholeReasonIsSo(selected, fs, r.finding, s.reason);
    }
  }

  lemma ItemReasonIsSo(fs: seq<Finding>, home: string, r: Ref, why: Reason)
    requires ValidRef(fs, r) && ItemReason(fs, PathsOf(fs), home, r, why)
    ensures var rule, it := fs[r.finding].rule, fs[r.finding].items[r.item];
      match why
      case NoPath => rule.native.None? && it.path == ""
      case NoValue =>
        rule.native.Some?
        && ((rule.native.value.usesPath && it.path == "") || (rule.native.value.usesArg && it.arg == ""))
      case GuardedPath => Filled(rule, it) && it.path != "" && !SafePath(it.path, home)
      case HoldsSurfaceOnly(id) =>
        Filled(rule, it) && !(it.path != "" && !SafePath(it.path, home))
        && exists c | HoldsIt(fs, r, c) :: id == NameOf(fs, c)
      case _ => false
  {
    SafePathExactly(fs[r.finding].items[r.item].path, home);
    HoldsExactly(fs, r);
    if why.HoldsSurfaceOnly? {
      var c :| Conflicts(fs, PathsOf(fs), r, c) && why.id == RefID(fs, c);
      assert HoldsIt(fs, r, c) && why.id == NameOf(fs, c);
    }
  }

  lemma WholeReasonIsSo(selected: map<string, bool>, fs: seq<Finding>, fi: nat, why: Reason)
    requires fi < |fs| && WholeReason(fs, PathsOf(fs), PickedRefs(selected, fs), fi, why)
    ensures match why
      case WholeRuleOnly => !AllAsked(selected, fs[fi])
      case HoldsSurfaceOnly(id) =>
        AllAsked(selected, fs[fi])
        && exists q: Ref, c: Ref | HoldsIt(fs, q, c) :: id == NameOf(fs, c) && q.finding == fi
      case _ => false
  {
    AllAskedExactly(selected, fs, fi);
    if why.HoldsSurfaceOnly? {
      var q: Ref, c: Ref :| q.finding == fi && ValidRef(fs, q) && Conflicts(fs, PathsOf(fs), q, c)
        && why.id == RefID(fs, c);
      HoldsExactly(fs, q);
      assert HoldsIt(fs, q, c) && why.id == NameOf(fs, c);
    }
  }

  /** Whatever was asked for and is not deleted, a skip names: the item, or its rule. */
  lemma LeftOutIsNamed(selected: map<string, bool>, fs: seq<Finding>, home: string, opts: Options, plan: Plan)
    requires PlanOf(selected, fs, home, opts, plan)
    ensures forall r | ValidRef(fs, r) && Asked(selected, fs[r.finding].rule, fs[r.finding].items[r.item]) ::
      r in Targets(plan) || exists s <- plan.skipped ::
        For(s, fs[r.finding].rule, "") || For(s, fs[r.finding].rule, fs[r.finding].items[r.item].key)
    ensures forall fi: nat | fi < |fs| && fs[fi].rule.risk == SurfaceOnly && RuleAsked(selected, fs[fi].rule.id) ::
      exists s <- plan.skipped :: ReportFor(selected, fs, fi, s)
  {
    forall r | ValidRef(fs, r) && Asked(selected, fs[r.finding].rule, fs[r.finding].items[r.item])
      ensures r in Targets(plan) || exists s <- plan.skipped ::
        For(s, fs[r.finding].rule, "") || For(s, fs[r.finding].rule, fs[r.finding].items[r.item].key)
    {
      AskedExactly(selected, fs, r);
    }
    forall fi: nat | fi < |fs| && fs[fi].rule.risk == SurfaceOnly && RuleAsked(selected, fs[fi].rule.id)
      ensures exists s <- plan.skipped :: ReportFor(selected, fs, fi, s)
    {
      RuleAskedExactly(selected, fs[fi].rule.id);
      assert Reported(fs[fi]) in plan.skipped && ReportFor(selected, fs, fi, Reported(fs[fi]));
    }
  }
}
