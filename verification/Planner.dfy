// BuildPlanWith: from a selection to the exact actions.
// internal/engine/plan.go, lines 345 to 545 and 650 to 663.
module Planner {
  import opened Paths
  import opened Catalog
  import opened Forest
  import opened Selection
  import opened Nesting

  /** The face that runs the plan. found is the programs on its PATH; None
      plans without looking. */
  datatype Options = Options(noSudo: bool, found: Option<set<string>>)

  datatype Plan = Plan(drafts: seq<Draft>, skipped: seq<Skip>, unmatched: set<string>)

  /** trash.GuardPath: absolute, two levels deep, not the home, not a mount root. */
  predicate GuardPath(path: string, home: string) {
    var c := Clean(path).comps;
    && IsAbs(path)
    && |c| >= 2 && !(c[0] == "Volumes" && |c| <= 2)
    && !(home != "" && Clean(path) == Clean(home))
  }

  predicate SurfaceOnlyItem(fs: seq<Finding>, c: Ref) {
    ValidRef(fs, c) && !RuleOf(fs, c).risk.Actionable()
  }

  /** Deleting r takes no surface-only item with it: none lies inside r's path,
      and none at it, whether its rule comes before or after r's. */
  ghost predicate NoConflict(fs: seq<Finding>, ps: PathMap, r: Ref) {
    forall c | c in ps && SurfaceOnlyItem(fs, c) && r in ps :: !Contains(ps[r], ps[c])
  }

  /** Deleting r takes the surface-only item c with it. */
  ghost predicate Conflicts(fs: seq<Finding>, ps: PathMap, r: Ref, c: Ref) {
    SurfaceOnlyItem(fs, c) && c in ps && r in ps && Contains(ps[r], ps[c])
  }

  ghost predicate Within(fs: seq<Finding>, f: Forest) {
    f.Valid() && forall r <- f.paths :: ValidRef(fs, r)
  }

  method SurfaceOnlyConflict(fs: seq<Finding>, f: Forest, ref: Ref) returns (conflict: Option<Ref>)
    requires Within(fs, f)
    requires ValidRef(fs, ref) && RuleOf(fs, ref).risk.Actionable()
    ensures conflict.None? <==> NoConflict(fs, f.paths, ref)
    ensures conflict.Some? ==> Conflicts(fs, f.paths, ref, conflict.value)
  {
    var down := Descendants(f, ref);
    for i := 0 to |down|
      invariant forall d <- down[..i] :: !SurfaceOnlyItem(fs, d)
    {
      assert down[i] in down;
      if SurfaceOnlyItem(fs, down[i]) {
        ConflictsBelow(fs, f.paths, ref, down[i]);
        return Some(down[i]);
      }
    }
    assert down[..|down|] == down;
    var shares := SharesPath(f, ref);
    for i := 0 to |shares|
      invariant forall a <- shares[..i] :: !SurfaceOnlyItem(fs, a)
    {
      assert shares[i] in shares;
      if SurfaceOnlyItem(fs, shares[i]) {
        ConflictsShared(fs, f.paths, ref, shares[i]);
        return Some(shares[i]);
      }
    }
    assert shares[..|shares|] == shares;
    NoConflictFound(fs, f.paths, ref);
    return None;
  }

  lemma ConflictsBelow(fs: seq<Finding>, ps: PathMap, ref: Ref, d: Ref)
    requires Above(ps, ref, d) && SurfaceOnlyItem(fs, d)
    ensures Conflicts(fs, ps, ref, d) && !NoConflict(fs, ps, ref)
  {
  }

  lemma ConflictsShared(fs: seq<Finding>, ps: PathMap, ref: Ref, a: Ref)
    requires Above(ps, a, ref) && ps[a] == ps[ref] && SurfaceOnlyItem(fs, a)
    ensures Conflicts(fs, ps, ref, a) && !NoConflict(fs, ps, ref)
  {
    assert Contains(ps[ref], ps[a]);
  }

  lemma NoConflictFound(fs: seq<Finding>, ps: PathMap, ref: Ref)
    requires !SurfaceOnlyItem(fs, ref)
    requires forall d | Above(ps, ref, d) :: !SurfaceOnlyItem(fs, d)
    requires forall a | Above(ps, a, ref) && ps[a] == ps[ref] :: !SurfaceOnlyItem(fs, a)
    ensures NoConflict(fs, ps, ref)
  {
    forall c | c in ps && SurfaceOnlyItem(fs, c) && ref in ps ensures !Contains(ps[ref], ps[c]) {
      if Contains(ps[ref], ps[c]) && !Above(ps, ref, c) {
        assert false;
      }
    }
  }

  // ---- drafts of one finding ----

  /** The item has what its rule substitutes; a Trash move needs a path. */
  predicate HasValues(rule: Rule, it: Item) {
    match rule.native
    case None => it.path != ""
    case Some(n) => (n.usesPath ==> it.path != "") && (n.usesArg ==> it.arg != "")
  }

  predicate Guarded(it: Item, home: string) {
    it.path != "" ==> GuardPath(it.path, home)
  }

  /** One item may be deleted on its own: a Trash move, or a per-item command. */
  ghost predicate ItemOk(fs: seq<Finding>, ps: PathMap, home: string, r: Ref)
    requires ValidRef(fs, r)
  {
    HasValues(RuleOf(fs, r), ItemAt(fs, r)) && Guarded(ItemAt(fs, r), home) && NoConflict(fs, ps, r)
  }

  /** Why an item may not be deleted on its own, the first that applies. */
  ghost predicate ItemReason(fs: seq<Finding>, ps: PathMap, home: string, r: Ref, why: Reason)
    requires ValidRef(fs, r)
  {
    var rule, it := RuleOf(fs, r), ItemAt(fs, r);
    match why
    case NoPath => rule.native.None? && !HasValues(rule, it)
    case NoValue => rule.native.Some? && !HasValues(rule, it)
    case GuardedPath => HasValues(rule, it) && !Guarded(it, home)
    case HoldsSurfaceOnly(id) =>
      HasValues(rule, it) && Guarded(it, home) && exists c :: Conflicts(fs, ps, r, c) && id == RefID(fs, c)
    case _ => false
  }

  ghost function Deletable(fs: seq<Finding>, ps: PathMap, home: string): set<Ref> {
    set r | r in AllRefs(fs) && ItemOk(fs, ps, home, r)
  }

  function ItemAction(fs: seq<Finding>, r: Ref): Action
    requires ValidRef(fs, r)
  {
    var rule, it := RuleOf(fs, r), ItemAt(fs, r);
    if rule.native.None? then
      Action(rule.id, it.key, TrashKind, rule.preAction, "", it.path, 0, false, false, [])
    else
      Action(rule.id, it.key, NativeKind, rule.preAction, rule.measure, it.path, 0, false, rule.sudo, [])
  }

  function WholeAction(rule: Rule): Action {
    Action(rule.id, "", NativeKind, rule.preAction, rule.measure, "", 0, rule.emptiesTrash, rule.sudo, [])
  }

  /** A skip of the item, or of its whole rule. */
  ghost predicate Named(fs: seq<Finding>, skips: seq<Skip>, r: Ref)
    requires ValidRef(fs, r)
  {
    exists s <- skips :: s.ruleID == RuleOf(fs, r).id && (s.itemKey == "" || s.itemKey == ItemAt(fs, r).key)
  }

  /** No reason yet names a covering item: only nesting gives that one. */
  ghost predicate NoneInside(skips: seq<Skip>) {
    forall s <- skips :: !s.reason.Inside?
  }

  ghost predicate InDraft(ds: seq<Draft>, r: Ref) {
    exists d <- ds :: r in d.items
  }

  /** Each ref in order is drafted on its own exactly when it may be; the others are named. */
  ghost predicate ItemDrafts(fs: seq<Finding>, ok: set<Ref>, refs: seq<Ref>, ds: seq<Draft>, skips: seq<Skip>)
    requires RefsValid(fs, refs)
  {
    && (forall d <- ds :: OneItem(fs, ok, refs, d))
    && EachAnswered(fs, ok, refs, ds, skips)
    && InOrder(ds)
  }

  ghost predicate EachAnswered(fs: seq<Finding>, ok: set<Ref>, refs: seq<Ref>, ds: seq<Draft>, skips: seq<Skip>)
    requires RefsValid(fs, refs)
  {
    forall r <- refs :: if r in ok then InDraft(ds, r) else Named(fs, skips, r)
  }

  predicate Before(d: Draft, e: Draft) {
    d.items != [] && e.items != [] && RefLess(d.items[0], e.items[0])
  }

  ghost predicate OneItem(fs: seq<Finding>, ok: set<Ref>, refs: seq<Ref>, d: Draft)
    requires RefsValid(fs, refs)
  {
    |d.items| == 1 && d.items[0] in refs && d.items[0] in ok && d.action == ItemAction(fs, d.items[0])
  }

  /** Every skip names one of the items, with a reason that holds of it. */
  ghost predicate ItemSkips(fs: seq<Finding>, ps: PathMap, home: string, refs: seq<Ref>, skips: seq<Skip>)
    requires RefsValid(fs, refs)
  {
    forall s <- skips :: exists r <- refs :: SkippedItem(fs, ps, home, r, s)
  }

  ghost predicate SkippedItem(fs: seq<Finding>, ps: PathMap, home: string, r: Ref, s: Skip)
    requires ValidRef(fs, r)
  {
    s.ruleID == RuleOf(fs, r).id && s.itemKey == ItemAt(fs, r).key && ItemReason(fs, ps, home, r, s.reason)
  }

  lemma OneMoreSkip(fs: seq<Finding>, ps: PathMap, home: string, refs: seq<Ref>, r: Ref, skips: seq<Skip>, s: Skip)
    requires RefsValid(fs, refs) && ValidRef(fs, r) && ItemSkips(fs, ps, home, refs, skips)
    ensures RefsValid(fs, refs + [r]) && ItemSkips(fs, ps, home, refs + [r], skips)
    ensures SkippedItem(fs, ps, home, r, s) ==> ItemSkips(fs, ps, home, refs + [r], skips + [s])
  {
    assert r in refs + [r];
    forall t <- skips ensures exists q <- refs + [r] :: SkippedItem(fs, ps, home, q, t) {
      var q :| q in refs && SkippedItem(fs, ps, home, q, t);
      assert q in refs + [r];
    }
  }

  ghost predicate Ascending(refs: seq<Ref>) {
    forall i, j | 0 <= i < j < |refs| :: RefLess(refs[i], refs[j])
  }

  lemma InMore(fs: seq<Finding>, ds: seq<Draft>, more: seq<Draft>, skips: seq<Skip>, moreSkips: seq<Skip>, r: Ref)
    requires ValidRef(fs, r)
    ensures InDraft(ds, r) || InDraft(more, r) ==> InDraft(ds + more, r)
    ensures Named(fs, skips, r) || Named(fs, moreSkips, r) ==> Named(fs, skips + moreSkips, r)
  {
    assert forall d | d in ds || d in more :: d in ds + more;
    assert forall s | s in skips || s in moreSkips :: s in skips + moreSkips;
  }

  lemma LastOfAscending(refs: seq<Ref>, r: Ref)
    requires Ascending(refs + [r])
    ensures forall q <- refs :: RefLess(q, r)
  {
    forall q <- refs ensures RefLess(q, r) {
      var i :| 0 <= i < |refs| && refs[i] == q;
      assert RefLess((refs + [r])[i], (refs + [r])[|refs|]);
    }
  }

  lemma OneDraftMore(fs: seq<Finding>, ok: set<Ref>, refs: seq<Ref>, r: Ref, ds: seq<Draft>, d: Draft)
    requires RefsValid(fs, refs + [r]) && RefsValid(fs, refs) && OneItem(fs, ok, refs + [r], d)
    requires forall e <- ds :: OneItem(fs, ok, refs, e)
    ensures forall e <- ds + [d] :: OneItem(fs, ok, refs + [r], e)
  {
    forall e <- ds + [d] ensures OneItem(fs, ok, refs + [r], e) {
      if e in ds { assert OneItem(fs, ok, refs, e); }
    }
  }

  lemma OneDraftLater(fs: seq<Finding>, ok: set<Ref>, refs: seq<Ref>, ds: seq<Draft>, d: Draft)
    requires RefsValid(fs, refs) && d.items != [] && forall q <- refs :: RefLess(q, d.items[0])
    requires (forall e <- ds :: OneItem(fs, ok, refs, e)) && InOrder(ds)
    ensures InOrder(ds + [d])
  {
    forall i, j | 0 <= i < j < |ds + [d]| ensures Before((ds + [d])[i], (ds + [d])[j]) {
      if j == |ds| { assert OneItem(fs, ok, refs, ds[i]); } else { assert Before(ds[i], ds[j]); }
    }
  }

  lemma DraftedOne(fs: seq<Finding>, ok: set<Ref>, refs: seq<Ref>, r: Ref, ds: seq<Draft>, skips: seq<Skip>)
    requires RefsValid(fs, refs + [r]) && RefsValid(fs, refs) && Ascending(refs + [r]) && ValidRef(fs, r) && r in ok
    requires ItemDrafts(fs, ok, refs, ds, skips)
    ensures ItemDrafts(fs, ok, refs + [r], ds + [Draft(ItemAction(fs, r), [r])], skips)
  {
    var d := Draft(ItemAction(fs, r), [r]);
    LastOfAscending(refs, r);
    assert r in refs + [r];
    OneDraftMore(fs, ok, refs, r, ds, d);
    OneDraftLater(fs, ok, refs, ds, d);
    OneAnsweredMore(fs, ok, refs, r, ds, d, skips);
  }

  lemma OneAnsweredMore(fs: seq<Finding>, ok: set<Ref>, refs: seq<Ref>, r: Ref, ds: seq<Draft>, d: Draft,
                        skips: seq<Skip>)
    requires RefsValid(fs, refs + [r]) && RefsValid(fs, refs) && r in ok && d.items == [r]
    requires EachAnswered(fs, ok, refs, ds, skips)
    ensures EachAnswered(fs, ok, refs + [r], ds + [d], skips)
  {
    assert InDraft([d], r) by { assert d in [d]; }
    forall q <- refs + [r] ensures if q in ok then InDraft(ds + [d], q) else Named(fs, skips, q) {
      InMore(fs, ds, [d], skips, [], q);
    }
  }

  lemma SkippedOne(fs: seq<Finding>, ok: set<Ref>, refs: seq<Ref>, r: Ref, ds: seq<Draft>, skips: seq<Skip>,
                   reason: Reason)
    requires RefsValid(fs, refs + [r]) && RefsValid(fs, refs) && ValidRef(fs, r) && r !in ok
    requires ItemDrafts(fs, ok, refs, ds, skips)
    ensures ItemDrafts(fs, ok, refs + [r], ds, skips + [Skip(RuleOf(fs, r).id, ItemAt(fs, r).key, reason)])
  {
    var s := Skip(RuleOf(fs, r).id, ItemAt(fs, r).key, reason);
    assert Named(fs, [s], r) by { assert s in [s]; }
    forall q <- refs + [r] ensures q !in ok ==> Named(fs, skips + [s], q) { InMore(fs, ds, [], skips, [s], q); }
  }

  /** Draft item k on its own, or skip it for the reason found. */
  method Sort(fs: seq<Finding>, ghost ps: PathMap, ghost home: string, refs: seq<Ref>, k: nat, ds0: seq<Draft>,
              skips0: seq<Skip>, why: Option<Reason>)
    returns (ds: seq<Draft>, skips: seq<Skip>)
    requires k < |refs| && RefsValid(fs, refs) && Ascending(refs)
    requires ItemDrafts(fs, Deletable(fs, ps, home), refs[..k], ds0, skips0)
      && ItemSkips(fs, ps, home, refs[..k], skips0)
    requires why.None? <==> refs[k] in Deletable(fs, ps, home)
    requires why.Some? ==> ItemReason(fs, ps, home, refs[k], why.value)
    ensures ItemDrafts(fs, Deletable(fs, ps, home), refs[..k + 1], ds, skips)
      && ItemSkips(fs, ps, home, refs[..k + 1], skips)
  {
    var ref := refs[k];
    ghost var ok := Deletable(fs, ps, home);
    assert refs[..k + 1] == refs[..k] + [ref];
    match why
    case None =>
      DraftedOne(fs, ok, refs[..k], ref, ds0, skips0);
      OneMoreSkip(fs, ps, home, refs[..k], ref, skips0, Skip("", "", NoPath));
      return ds0 + [Draft(ItemAction(fs, ref), [ref])], skips0;
    case Some(reason) =>
      var s := Skip(RuleOf(fs, ref).id, ItemAt(fs, ref).key, reason);
      SkippedOne(fs, ok, refs[..k], ref, ds0, skips0, reason);
      OneMoreSkip(fs, ps, home, refs[..k], ref, skips0, s);
      return ds0, skips0 + [s];
  }

  method TrashDrafts(fs: seq<Finding>, f: Forest, home: string, refs: seq<Ref>)
    returns (ds: seq<Draft>, skips: seq<Skip>)
    requires Within(fs, f) && RefsValid(fs, refs) && Ascending(refs)
    requires forall r <- refs :: RuleOf(fs, r).native.None? && RuleOf(fs, r).risk.Actionable()
    ensures ItemDrafts(fs, Deletable(fs, f.paths, home), refs, ds, skips) && ItemSkips(fs, f.paths, home, refs, skips)
  {
    ds, skips := [], [];
    for k := 0 to |refs|
      invariant ItemDrafts(fs, Deletable(fs, f.paths, home), refs[..k], ds, skips)
        && ItemSkips(fs, f.paths, home, refs[..k], skips)
    {
      var ref := refs[k];
      var it := ItemAt(fs, ref);
      assert ref in Deletable(fs, f.paths, home) <==> ItemOk(fs, f.paths, home, ref);
      var why: Option<Reason> := None;
      if it.path == "" {
        why := Some(NoPath);
      } else if !GuardPath(it.path, home) {
        why := Some(GuardedPath);
      } else {
        why := Conflict(fs, f, ref);
      }
      ds, skips := Sort(fs, f.paths, home, refs, k, ds, skips, why);
    }
    assert refs[..|refs|] == refs;
  }

  /** The surface-only item deleting ref would take along, as a skip's reason. */
  method Conflict(fs: seq<Finding>, f: Forest, ref: Ref) returns (why: Option<Reason>)
    requires Within(fs, f) && ValidRef(fs, ref) && RuleOf(fs, ref).risk.Actionable()
    ensures why.None? <==> NoConflict(fs, f.paths, ref)
    ensures why.Some? ==> exists c :: Conflicts(fs, f.paths, ref, c) && why.value == HoldsSurfaceOnly(RefID(fs, c))
  {
    var conflict := SurfaceOnlyConflict(fs, f, ref);
    match conflict
    case None => return None;
    case Some(c) => return Some(HoldsSurfaceOnly(RefID(fs, c)));
  }

  /** A whole-rule command is drafted for all of the rule's items or for none. */
  method WholeRuleDraft(fs: seq<Finding>, f: Forest, rule: Rule, refs: seq<Ref>, partial: bool)
    returns (ds: seq<Draft>, skips: seq<Skip>)
    requires Within(fs, f) && RefsValid(fs, refs)
    requires forall r <- refs :: RuleOf(fs, r) == rule && rule.risk.Actionable()
    ensures !partial && (forall r <- refs :: NoConflict(fs, f.paths, r)) ==>
      ds == [Draft(WholeAction(rule), refs)] && skips == []
    ensures partial ==> ds == [] && skips == [Skip(rule.id, "", WholeRuleOnly)]
    ensures !partial && (exists r <- refs :: !NoConflict(fs, f.paths, r)) ==>
      ds == [] && exists r, c ::
        r in refs && Conflicts(fs, f.paths, r, c) && skips == [Skip(rule.id, "", HoldsSurfaceOnly(RefID(fs, c)))]
  {
    if partial {
      return [], [Skip(rule.id, "", WholeRuleOnly)];
    }
    for k := 0 to |refs|
      invariant forall r <- refs[..k] :: NoConflict(fs, f.paths, r)
    {
      var why := Conflict(fs, f, refs[k]);
      if why.Some? {
        return [], [Skip(rule.id, "", why.value)];
      }
    }
    assert refs[..|refs|] == refs;
    return [Draft(WholeAction(rule), refs)], [];
  }

  method PerItemDrafts(fs: seq<Finding>, f: Forest, home: string, native: Native, refs: seq<Ref>)
    returns (ds: seq<Draft>, skips: seq<Skip>)
    requires Within(fs, f) && RefsValid(fs, refs) && Ascending(refs)
    requires forall r <- refs :: RuleOf(fs, r).native == Some(native) && RuleOf(fs, r).risk.Actionable()
    ensures ItemDrafts(fs, Deletable(fs, f.paths, home), refs, ds, skips) && ItemSkips(fs, f.paths, home, refs, skips)
  {
    ds, skips := [], [];
    for k := 0 to |refs|
      invariant ItemDrafts(fs, Deletable(fs, f.paths, home), refs[..k], ds, skips)
        && ItemSkips(fs, f.paths, home, refs[..k], skips)
    {
      var ref := refs[k];
      var it := ItemAt(fs, ref);
      assert ref in Deletable(fs, f.paths, home) <==> ItemOk(fs, f.paths, home, ref);
      var why: Option<Reason> := None;
      if (native.usesPath && it.path == "") || (native.usesArg && it.arg == "") {
        why := Some(NoValue);
      } else if it.path != "" && !GuardPath(it.path, home) {
        why := Some(GuardedPath);
      } else {
        why := Conflict(fs, f, ref);
      }
      ds, skips := Sort(fs, f.paths, home, refs, k, ds, skips, why);
    }
    assert refs[..|refs|] == refs;
  }

  /** Why the face cannot run the rule's steward command, as the skip's reason
      for a selector; None when it can. */
  function Refusal(opts: Options, rule: Rule, selector: string): Option<Reason>
    requires rule.native.Some?
  {
    if opts.found.Some? && rule.native.value.program !in opts.found.value
    then Some(NotOnPath(rule.native.value.program))
    else if opts.noSudo && rule.sudo then Some(NeedsAdmin(selector))
    else None
  }

  predicate Refused(opts: Options, rule: Rule) {
    rule.native.Some? && Refusal(opts, rule, "").Some?
  }

  /** The skip for a refused rule as a whole, or for one item of a partial pick:
      its selector is what the owner would select to run it elsewhere. */
  function RefusedSkip(opts: Options, rule: Rule, partial: bool, key: string): Skip
    requires Refused(opts, rule)
  {
    if partial then Skip(rule.id, key, Refusal(opts, rule, ItemID(rule.id, key)).value)
    else Skip(rule.id, "", Refusal(opts, rule, rule.id).value)
  }

  method RefusedSkips(opts: Options, rule: Rule, ds: seq<Draft>, partial: bool) returns (skips: seq<Skip>)
    requires Refused(opts, rule)
    ensures !partial ==> skips == [RefusedSkip(opts, rule, false, "")]
    ensures partial ==> |skips| == |ds| && forall i | 0 <= i < |ds| ::
      skips[i] == RefusedSkip(opts, rule, true, ds[i].action.itemKey)
  {
    if !partial {
      return [Skip(rule.id, "", Refusal(opts, rule, rule.id).value)];
    }
    skips := [];
    for i := 0 to |ds|
      invariant |skips| == i
      invariant forall k | 0 <= k < i :: skips[k] == RefusedSkip(opts, rule, true, ds[k].action.itemKey)
    {
      skips := skips + [Skip(rule.id, ds[i].action.itemKey,
        Refusal(opts, rule, ItemID(rule.id, ds[i].action.itemKey)).value)];
    }
  }

  // ---- which items may be planned, and why the others may not ----

  /** A command that deletes all of a rule's items at once. */
  predicate Whole(rule: Rule) {
    rule.native.Some? && !rule.native.value.PerItem()
  }

  ghost predicate AllPicked(fs: seq<Finding>, picked: set<Ref>, fi: nat)
    requires fi < |fs|
  {
    forall i | 0 <= i < |fs[fi].items| :: Ref(fi, i) in picked
  }

  /** Taken with its rule's other items, r holds nothing that must stay. */
  ghost predicate Allowed(fs: seq<Finding>, ps: PathMap, home: string, picked: set<Ref>, r: Ref)
    requires ValidRef(fs, r)
  {
    if Whole(RuleOf(fs, r)) then
      AllPicked(fs, picked, r.finding) && forall i | 0 <= i < |fs[r.finding].items| ::
        NoConflict(fs, ps, Ref(r.finding, i))
    else ItemOk(fs, ps, home, r)
  }

  ghost predicate Plannable(fs: seq<Finding>, ps: PathMap, home: string, opts: Options, picked: set<Ref>, r: Ref) {
    && r in picked && ValidRef(fs, r) && RuleOf(fs, r).risk.Actionable() && !Refused(opts, RuleOf(fs, r))
    && Allowed(fs, ps, home, picked, r)
  }

  /** Why a whole-rule command may not run. */
  ghost predicate WholeReason(fs: seq<Finding>, ps: PathMap, picked: set<Ref>, fi: nat, why: Reason)
    requires fi < |fs|
  {
    match why
    case WholeRuleOnly => !AllPicked(fs, picked, fi)
    case HoldsSurfaceOnly(id) =>
      AllPicked(fs, picked, fi) && exists r: Ref, c: Ref ::
        r.finding == fi && ValidRef(fs, r) && Conflicts(fs, ps, r, c) && id == RefID(fs, c)
    case _ => false
  }

  /** s says, rightly, why the picked item r is not planned. */
  ghost predicate SkippedFor(fs: seq<Finding>, ps: PathMap, home: string, opts: Options, picked: set<Ref>, r: Ref,
                             s: Skip) {
    && r in picked && ValidRef(fs, r) && RuleOf(fs, r).risk.Actionable() && s.ruleID == RuleOf(fs, r).id
    && (|| (!Whole(RuleOf(fs, r)) && SkippedItem(fs, ps, home, r, s))
        || (Whole(RuleOf(fs, r)) && s.itemKey == "" && WholeReason(fs, ps, picked, r.finding, s.reason))
        || (Allowed(fs, ps, home, picked, r) && Refused(opts, RuleOf(fs, r)) &&
            s == RefusedSkip(opts, RuleOf(fs, r), !AllPicked(fs, picked, r.finding), ItemAt(fs, r).key)))
  }

  /** The skip of a rule that is only ever reported. */
  function Reported(f: Finding): Skip {
    Skip(f.rule.id, "", if f.held != "" then HeldBy(f.held) else ReportOnly)
  }

  /** s reports an engaged surface-only rule, or says why a picked item is not planned. */
  ghost predicate Justified(fs: seq<Finding>, ps: PathMap, home: string, opts: Options, picked: set<Ref>,
                            engaged: set<nat>, s: Skip) {
    || (exists fi <- engaged :: fi < |fs| && !fs[fi].rule.risk.Actionable() && s == Reported(fs[fi]))
    || exists r :: SkippedFor(fs, ps, home, opts, picked, r, s)
  }

  /** What every draft of finding fi promises, whatever its kind. */
  ghost predicate Sound(fs: seq<Finding>, ps: PathMap, home: string, opts: Options, fi: nat, d: Draft) {
    && fi < |fs|
    && d.items != [] && RefsValid(fs, d.items) && Ascending(d.items)
    && (forall r <- d.items :: r.finding == fi && NoConflict(fs, ps, r))
    && fs[fi].rule.risk.Actionable() && !Refused(opts, fs[fi].rule)
    && d.action.ruleID == fs[fi].rule.id
    && (if Whole(fs[fi].rule)
        then d.action == WholeAction(fs[fi].rule) && forall i | 0 <= i < |fs[fi].items| :: Ref(fi, i) in d.items
        else |d.items| == 1 && ItemOk(fs, ps, home, d.items[0]) && d.action == ItemAction(fs, d.items[0]))
  }

  /** refs are the picked items of finding fi, in order. */
  ghost predicate PicksOf(fs: seq<Finding>, picked: set<Ref>, fi: nat, refs: seq<Ref>) {
    fi < |fs| && RefsValid(fs, refs) && Ascending(refs) && forall r :: r in refs <==> r in picked && r.finding == fi
  }

  /** The drafts and skips of one finding, for the picked items refs. */
  ghost predicate FindingDrafts(fs: seq<Finding>, ps: PathMap, home: string, opts: Options, picked: set<Ref>,
                                engaged: set<nat>, fi: nat, refs: seq<Ref>, ds: seq<Draft>, skips: seq<Skip>)
    requires fi < |fs| && RefsValid(fs, refs)
  {
    && (forall d <- ds :: SoundFrom(fs, ps, home, opts, fi, refs, d))
    && NoneShared(ds) && InOrder(ds)
    && (forall r <- refs :: if Plannable(fs, ps, home, opts, picked, r) then InDraft(ds, r) else Named(fs, skips, r))
    && (forall s <- skips :: Justified(fs, ps, home, opts, picked, engaged, s))
    && (fi in engaged && !fs[fi].rule.risk.Actionable() ==> Reported(fs[fi]) in skips)
  }

  ghost predicate SoundFrom(fs: seq<Finding>, ps: PathMap, home: string, opts: Options, fi: nat, refs: seq<Ref>,
                            d: Draft) {
    Sound(fs, ps, home, opts, fi, d) && forall r <- d.items :: r in refs
  }

  ghost predicate NoneShared(ds: seq<Draft>) {
    forall i, j, r | 0 <= i < j < |ds| && r in ds[i].items :: r !in ds[j].items
  }

  ghost predicate InOrder(ds: seq<Draft>) {
    forall i, j | 0 <= i < j < |ds| :: Before(ds[i], ds[j])
  }

  lemma NoneSharedItems(ds: seq<Draft>)
    requires (forall d <- ds :: |d.items| == 1) && InOrder(ds)
    ensures NoneShared(ds)
  {
    forall i, j, r | 0 <= i < j < |ds| && r in ds[i].items ensures r !in ds[j].items {
      assert Before(ds[i], ds[j]);
      assert ds[i].items == [r];
    }
  }

  lemma OneItemSound(fs: seq<Finding>, ps: PathMap, home: string, opts: Options, fi: nat, refs: seq<Ref>, d: Draft)
    requires fi < |fs| && RefsValid(fs, refs) && forall r <- refs :: r.finding == fi
    requires fs[fi].rule.PerItemActionable() && !Refused(opts, fs[fi].rule)
    requires OneItem(fs, Deletable(fs, ps, home), refs, d)
    ensures SoundFrom(fs, ps, home, opts, fi, refs, d)
  {
    assert d.items == [d.items[0]];
  }

  /** Items drafted one by one, when the face can run the rule. */
  lemma ItemDraftsSound(fs: seq<Finding>, ps: PathMap, home: string, opts: Options, picked: set<Ref>, engaged: set<nat>,
                        fi: nat, refs: seq<Ref>, ds: seq<Draft>, skips: seq<Skip>)
    requires PicksOf(fs, picked, fi, refs)
    requires fs[fi].rule.PerItemActionable() && !Refused(opts, fs[fi].rule)
    requires ItemDrafts(fs, Deletable(fs, ps, home), refs, ds, skips) && ItemSkips(fs, ps, home, refs, skips)
    ensures FindingDrafts(fs, ps, home, opts, picked, engaged, fi, refs, ds, skips)
  {
    AllSound(fs, ps, home, opts, fi, refs, ds, Deletable(fs, ps, home));
    assert forall d <- ds :: OneItem(fs, Deletable(fs, ps, home), refs, d);
    NoneSharedItems(ds);
    ItemSkipsJustified(fs, ps, home, opts, picked, engaged, fi, refs, skips);
    PicksDrafted(fs, ps, home, opts, picked, fi, refs, ds, skips);
  }

  lemma PicksDrafted(fs: seq<Finding>, ps: PathMap, home: string, opts: Options, picked: set<Ref>, fi: nat,
                     refs: seq<Ref>, ds: seq<Draft>, skips: seq<Skip>)
    requires PicksOf(fs, picked, fi, refs) && fs[fi].rule.PerItemActionable() && !Refused(opts, fs[fi].rule)
    requires EachAnswered(fs, Deletable(fs, ps, home), refs, ds, skips)
    ensures forall r <- refs :: if Plannable(fs, ps, home, opts, picked, r) then InDraft(ds, r) else Named(fs, skips, r)
  {
    forall r <- refs ensures if Plannable(fs, ps, home, opts, picked, r) then InDraft(ds, r) else Named(fs, skips, r) {
      assert Plannable(fs, ps, home, opts, picked, r) <==> r in Deletable(fs, ps, home);
    }
  }

  lemma ItemSkipsJustified(fs: seq<Finding>, ps: PathMap, home: string, opts: Options, picked: set<Ref>,
                           engaged: set<nat>, fi: nat, refs: seq<Ref>, skips: seq<Skip>)
    requires PicksOf(fs, picked, fi, refs) && fs[fi].rule.PerItemActionable()
    requires ItemSkips(fs, ps, home, refs, skips)
    ensures forall s <- skips :: Justified(fs, ps, home, opts, picked, engaged, s)
  {
    forall s <- skips ensures Justified(fs, ps, home, opts, picked, engaged, s) {
      var r :| r in refs && SkippedItem(fs, ps, home, r, s);
      assert SkippedFor(fs, ps, home, opts, picked, r, s);
    }
  }

  lemma AllSound(fs: seq<Finding>, ps: PathMap, home: string, opts: Options, fi: nat, refs: seq<Ref>,
                 ds: seq<Draft>, ok: set<Ref>)
    requires fi < |fs| && RefsValid(fs, refs) && forall r <- refs :: r.finding == fi
    requires fs[fi].rule.PerItemActionable() && !Refused(opts, fs[fi].rule)
    requires ok == Deletable(fs, ps, home) && forall d <- ds :: OneItem(fs, ok, refs, d)
    ensures forall d <- ds :: SoundFrom(fs, ps, home, opts, fi, refs, d)
  {
    forall d <- ds ensures SoundFrom(fs, ps, home, opts, fi, refs, d) {
      OneItemSound(fs, ps, home, opts, fi, refs, d);
    }
  }

  /** Items drafted one by one, when the face cannot run the rule. */
  lemma ItemDraftsRefused(fs: seq<Finding>, ps: PathMap, home: string, opts: Options, picked: set<Ref>,
                          engaged: set<nat>, fi: nat, refs: seq<Ref>, partial: bool, ds: seq<Draft>, skips: seq<Skip>,
                          more: seq<Skip>)
    requires PicksOf(fs, picked, fi, refs) && partial == !AllPicked(fs, picked, fi)
    requires fs[fi].rule.PerItemActionable() && Refused(opts, fs[fi].rule)
    requires ItemDrafts(fs, Deletable(fs, ps, home), refs, ds, skips) && ItemSkips(fs, ps, home, refs, skips)
    requires RefusedAs(opts, fs[fi].rule, partial, ds, more)
    ensures FindingDrafts(fs, ps, home, opts, picked, engaged, fi, refs, [], skips + more)
  {
    ItemSkipsJustified(fs, ps, home, opts, picked, engaged, fi, refs, skips);
    RefusalsJustified(fs, ps, home, opts, picked, engaged, fi, refs, partial, ds, more);
    RefusedNamed(fs, ps, home, opts, fi, refs, partial, ds, skips, more);
  }

  lemma RefusedNamed(fs: seq<Finding>, ps: PathMap, home: string, opts: Options, fi: nat, refs: seq<Ref>, partial: bool,
                     ds: seq<Draft>, skips: seq<Skip>, more: seq<Skip>)
    requires fi < |fs| && RefsValid(fs, refs) && (forall r <- refs :: r.finding == fi) && Refused(opts, fs[fi].rule)
    requires ItemDrafts(fs, Deletable(fs, ps, home), refs, ds, skips) && RefusedAs(opts, fs[fi].rule, partial, ds, more)
    ensures forall r <- refs :: Named(fs, skips + more, r)
  {
    forall r <- refs ensures Named(fs, skips + more, r) {
      if r in Deletable(fs, ps, home) { RefusedIsNamed(fs, ps, home, opts, fi, refs, partial, ds, more, r); }
      InMore(fs, [], [], skips, more, r);
    }
  }

  lemma RefusalsJustified(fs: seq<Finding>, ps: PathMap, home: string, opts: Options, picked: set<Ref>,
                          engaged: set<nat>, fi: nat, refs: seq<Ref>, partial: bool, ds: seq<Draft>, more: seq<Skip>)
    requires PicksOf(fs, picked, fi, refs) && partial == !AllPicked(fs, picked, fi)
    requires fs[fi].rule.PerItemActionable() && Refused(opts, fs[fi].rule)
    requires forall d <- ds :: OneItem(fs, Deletable(fs, ps, home), refs, d)
    requires RefusedAs(opts, fs[fi].rule, partial, ds, more)
    ensures forall s <- more :: Justified(fs, ps, home, opts, picked, engaged, s)
  {
    forall i | 0 <= i < |more| ensures Justified(fs, ps, home, opts, picked, engaged, more[i]) {
      assert OneItem(fs, Deletable(fs, ps, home), refs, ds[i]);
      assert SkippedFor(fs, ps, home, opts, picked, ds[i].items[0], more[i]);
    }
  }

  /** What a refusal says of the drafts it drops. */
  ghost predicate RefusedAs(opts: Options, rule: Rule, partial: bool, ds: seq<Draft>, more: seq<Skip>)
    requires Refused(opts, rule)
  {
    if ds == [] then more == []
    else if !partial then more == [RefusedSkip(opts, rule, false, "")]
    else |more| == |ds| && forall i | 0 <= i < |ds| :: more[i] == RefusedSkip(opts, rule, true, ds[i].action.itemKey)
  }

  lemma RefusedIsNamed(fs: seq<Finding>, ps: PathMap, home: string, opts: Options, fi: nat, refs: seq<Ref>,
                       partial: bool, ds: seq<Draft>, more: seq<Skip>, r: Ref)
    requires fi < |fs| && RefsValid(fs, refs) && Refused(opts, fs[fi].rule)
      && RefusedAs(opts, fs[fi].rule, partial, ds, more)
    requires forall d <- ds :: OneItem(fs, Deletable(fs, ps, home), refs, d)
    requires ValidRef(fs, r) && r.finding == fi && InDraft(ds, r)
    ensures Named(fs, more, r)
  {
    var i := DraftOf(ds, r);
    assert OneItem(fs, Deletable(fs, ps, home), refs, ds[i]);
    assert ds[i].items[0] == r;
    assert more[if partial then i else 0] in more;
  }

  lemma DraftOf(ds: seq<Draft>, r: Ref) returns (i: nat)
    requires InDraft(ds, r)
    ensures i < |ds| && r in ds[i].items
  {
    var d :| d in ds && r in d.items;
    i :| i < |ds| && ds[i] == d;
  }

  /** A whole-rule command: drafted for every item, or the rule is skipped. */
  lemma WholeDrafted(fs: seq<Finding>, ps: PathMap, home: string, opts: Options, picked: set<Ref>, engaged: set<nat>,
                     fi: nat, refs: seq<Ref>, skips: seq<Skip>)
    requires PicksOf(fs, picked, fi, refs) && refs != [] && Whole(fs[fi].rule) && fs[fi].rule.risk.Actionable()
    requires AllPicked(fs, picked, fi) && forall r <- refs :: NoConflict(fs, ps, r)
    ensures !Refused(opts, fs[fi].rule) ==>
      FindingDrafts(fs, ps, home, opts, picked, engaged, fi, refs, [Draft(WholeAction(fs[fi].rule), refs)], [])
    ensures Refused(opts, fs[fi].rule) ==>
      FindingDrafts(fs, ps, home, opts, picked, engaged, fi, refs, [], [RefusedSkip(opts, fs[fi].rule, false, "")])
  {
    var d := Draft(WholeAction(fs[fi].rule), refs);
    forall r <- refs ensures InDraft([d], r) && Allowed(fs, ps, home, picked, r) {
      assert d in [d];
    }
    if Refused(opts, fs[fi].rule) {
      var s := RefusedSkip(opts, fs[fi].rule, false, "");
      assert s in [s];
      assert SkippedFor(fs, ps, home, opts, picked, refs[0], s);
    } else {
      assert SoundFrom(fs, ps, home, opts, fi, refs, d);
    }
  }

  lemma WholeSkipped(fs: seq<Finding>, ps: PathMap, home: string, opts: Options, picked: set<Ref>, engaged: set<nat>,
                     fi: nat, refs: seq<Ref>, why: Reason)
    requires PicksOf(fs, picked, fi, refs) && refs != [] && Whole(fs[fi].rule) && fs[fi].rule.risk.Actionable()
    requires WholeReason(fs, ps, picked, fi, why)
    ensures FindingDrafts(fs, ps, home, opts, picked, engaged, fi, refs, [], [Skip(fs[fi].rule.id, "", why)])
  {
    var s := Skip(fs[fi].rule.id, "", why);
    assert s in [s];
    assert SkippedFor(fs, ps, home, opts, picked, refs[0], s);
    forall r <- refs ensures !Allowed(fs, ps, home, picked, r) && Named(fs, [s], r) {
      NotAllowed(fs, ps, home, picked, fi, r, why);
    }
  }

  lemma NotAllowed(fs: seq<Finding>, ps: PathMap, home: string, picked: set<Ref>, fi: nat, r: Ref, why: Reason)
    requires fi < |fs| && Whole(fs[fi].rule) && WholeReason(fs, ps, picked, fi, why)
    requires ValidRef(fs, r) && r.finding == fi
    ensures !Allowed(fs, ps, home, picked, r)
  {
    if AllPicked(fs, picked, fi) {
      var q: Ref, c: Ref :| q.finding == fi && ValidRef(fs, q) && Conflicts(fs, ps, q, c);
      assert Ref(fi, q.item) == q && !NoConflict(fs, ps, q);
    }
  }

  method DraftWhole(fs: seq<Finding>, f: Forest, home: string, opts: Options, ghost picked: set<Ref>,
                    ghost engaged: set<nat>, fi: nat, refs: seq<Ref>, partial: bool)
    returns (ds: seq<Draft>, skips: seq<Skip>)
    requires Within(fs, f) && PicksOf(fs, picked, fi, refs) && partial == !AllPicked(fs, picked, fi)
    requires refs != [] && Whole(fs[fi].rule) && fs[fi].rule.risk.Actionable()
    ensures FindingDrafts(fs, f.paths, home, opts, picked, engaged, fi, refs, ds, skips)
  {
    var rule := fs[fi].rule;
    ds, skips := WholeRuleDraft(fs, f, rule, refs, partial);
    if ds == [] {
      WholeSkipped(fs, f.paths, home, opts, picked, engaged, fi, refs, skips[0].reason);
    } else {
      WholeDrafted(fs, f.paths, home, opts, picked, engaged, fi, refs, skips);
      if Refused(opts, rule) {
        var more := RefusedSkips(opts, rule, ds, partial);
        ds, skips := [], skips + more;
      }
    }
  }

  method DraftEach(fs: seq<Finding>, f: Forest, home: string, opts: Options, ghost picked: set<Ref>,
                   ghost engaged: set<nat>, fi: nat, refs: seq<Ref>, partial: bool)
    returns (ds: seq<Draft>, skips: seq<Skip>)
    requires Within(fs, f) && PicksOf(fs, picked, fi, refs) && partial == !AllPicked(fs, picked, fi)
    requires fs[fi].rule.PerItemActionable() && fs[fi].rule.native.Some?
    ensures FindingDrafts(fs, f.paths, home, opts, picked, engaged, fi, refs, ds, skips)
  {
    var rule := fs[fi].rule;
    ds, skips := PerItemDrafts(fs, f, home, rule.native.value, refs);
    if Refused(opts, rule) {
      var more: seq<Skip> := [];
      if ds != [] { more := RefusedSkips(opts, rule, ds, partial); }
      ItemDraftsRefused(fs, f.paths, home, opts, picked, engaged, fi, refs, partial, ds, skips, more);
      ds, skips := [], skips + more;
    } else {
      ItemDraftsSound(fs, f.paths, home, opts, picked, engaged, fi, refs, ds, skips);
    }
  }

  /** One engaged finding's drafts and skips. */
  method DraftFinding(fs: seq<Finding>, f: Forest, home: string, opts: Options, ghost picked: set<Ref>,
                      ghost engaged: set<nat>, fi: nat, refs: seq<Ref>, partial: bool)
    returns (ds: seq<Draft>, skips: seq<Skip>)
    requires Within(fs, f) && PicksOf(fs, picked, fi, refs) && partial == !AllPicked(fs, picked, fi)
    requires refs != [] && fs[fi].rule.risk.Actionable()
    ensures FindingDrafts(fs, f.paths, home, opts, picked, engaged, fi, refs, ds, skips)
  {
    var rule := fs[fi].rule;
    if rule.native.None? {
      ds, skips := TrashDrafts(fs, f, home, refs);
      ItemDraftsSound(fs, f.paths, home, opts, picked, engaged, fi, refs, ds, skips);
    } else if rule.native.value.PerItem() {
      ds, skips := DraftEach(fs, f, home, opts, picked, engaged, fi, refs, partial);
    } else {
      ds, skips := DraftWhole(fs, f, home, opts, picked, engaged, fi, refs, partial);
    }
  }

  // ---- the plan ----

  /** A draft of one of the first n findings, all of whose items are picked. */
  ghost predicate DraftOk(fs: seq<Finding>, ps: PathMap, home: string, opts: Options, picked: set<Ref>, n: nat,
                          d: Draft) {
    && d.items != [] && d.items[0].finding < n && Sound(fs, ps, home, opts, d.items[0].finding, d)
    && forall r <- d.items :: r in picked
  }

  /** r is drafted when it may be planned, else named. */
  ghost predicate Settles(fs: seq<Finding>, ps: PathMap, home: string, opts: Options, picked: set<Ref>,
                          ds: seq<Draft>, skips: seq<Skip>, r: Ref)
  {
    ValidRef(fs, r) && if Plannable(fs, ps, home, opts, picked, r) then InDraft(ds, r) else Named(fs, skips, r)
  }

  ghost predicate ReportedAll(fs: seq<Finding>, engaged: set<nat>, n: nat, skips: seq<Skip>) {
    forall fi <- engaged | fi < n && fi < |fs| && !fs[fi].rule.risk.Actionable() :: Reported(fs[fi]) in skips
  }

  /** Drafts and skips of the first n findings. */
  ghost predicate Drafted(fs: seq<Finding>, ps: PathMap, home: string, opts: Options, picked: set<Ref>,
                          engaged: set<nat>, n: nat, ds: seq<Draft>, skips: seq<Skip>)
  {
    && (forall d <- ds :: DraftOk(fs, ps, home, opts, picked, n, d))
    && NoneShared(ds) && InOrder(ds)
    && (forall r <- picked | r.finding < n :: Settles(fs, ps, home, opts, picked, ds, skips, r))
    && (forall s <- skips :: Justified(fs, ps, home, opts, picked, engaged, s))
    && ReportedAll(fs, engaged, n, skips)
  }

  lemma DraftedNext(fs: seq<Finding>, ps: PathMap, home: string, opts: Options, picked: set<Ref>, engaged: set<nat>,
                    n: nat, ds: seq<Draft>, skips: seq<Skip>, refs: seq<Ref>, more: seq<Draft>, moreSkips: seq<Skip>)
    requires Drafted(fs, ps, home, opts, picked, engaged, n, ds, skips) && PicksOf(fs, picked, n, refs)
    requires FindingDrafts(fs, ps, home, opts, picked, engaged, n, refs, more, moreSkips)
    ensures Drafted(fs, ps, home, opts, picked, engaged, n + 1, ds + more, skips + moreSkips)
  {
    forall d <- more ensures DraftOk(fs, ps, home, opts, picked, n + 1, d) && d.items[0].finding == n {
      assert SoundFrom(fs, ps, home, opts, n, refs, d);
      assert d.items[0] in d.items;
    }
    assert forall d <- ds :: DraftOk(fs, ps, home, opts, picked, n, d) && DraftOk(fs, ps, home, opts, picked, n + 1, d);
    OrderedConcat(fs, ps, home, opts, picked, n, ds, more);
    forall r <- picked | r.finding < n + 1
      ensures Settles(fs, ps, home, opts, picked, ds + more, skips + moreSkips, r)
    {
      assert r.finding < n ==> Settles(fs, ps, home, opts, picked, ds, skips, r);
      assert r.finding == n ==> r in refs;
      InMore(fs, ds, more, skips, moreSkips, r);
    }
  }

  lemma OrderedConcat(fs: seq<Finding>, ps: PathMap, home: string, opts: Options, picked: set<Ref>, n: nat,
                      ds: seq<Draft>, more: seq<Draft>)
    requires NoneShared(ds) && InOrder(ds) && NoneShared(more) && InOrder(more)
    requires forall d <- ds :: DraftOk(fs, ps, home, opts, picked, n, d)
    requires forall d <- more :: DraftOk(fs, ps, home, opts, picked, n + 1, d) && d.items[0].finding == n
    ensures NoneShared(ds + more) && InOrder(ds + more)
  {
    var all := ds + more;
    forall i, j | 0 <= i < j < |all|
      ensures Before(all[i], all[j])
      ensures forall r <- all[i].items :: r !in all[j].items
    {
      if i < |ds| && j >= |ds| {
        assert DraftOk(fs, ps, home, opts, picked, n, ds[i])
          && DraftOk(fs, ps, home, opts, picked, n + 1, more[j - |ds|]);
        assert all[i] == ds[i] && all[j] == more[j - |ds|];
      } else if j < |ds| {
        assert Before(ds[i], ds[j]);
      } else {
        assert Before(more[i - |ds|], more[j - |ds|]);
      }
    }
  }

  lemma MarkedNext(sel: Selection, fs: seq<Finding>, fi: nat, refs: seq<Ref>, matched0: set<string>,
                   matched: set<string>)
    requires fi < |fs|
    requires forall a :: a in matched0 <==> Marked(sel, fs, fi, a)
    requires forall r: Ref :: r in refs <==> r.finding == fi && sel.Picks(fs, r)
    requires matched == matched0 +
      (if fs[fi].rule.id in sel.rules then {} else IDsOf(fs, refs))
    ensures forall a :: a in matched <==> Marked(sel, fs, fi + 1, a)
  {
    forall a ensures a in matched <==> Marked(sel, fs, fi + 1, a) {
      if Marked(sel, fs, fi, a) {
        var r: Ref :| r.finding < fi && sel.Picks(fs, r) && RuleOf(fs, r).id !in sel.rules && RefID(fs, r) == a;
      }
    }
  }

  /** The drafts, skips and matched atoms of every finding. */
  method DraftAll(fs: seq<Finding>, f: Forest, home: string, opts: Options, sel: Selection, ghost picked: set<Ref>,
                  ghost engaged: set<nat>)
    returns (ds: seq<Draft>, skips: seq<Skip>, matched: set<string>)
    requires Within(fs, f)
    requires forall r :: sel.Picks(fs, r) <==> r in picked
    requires forall fi: nat | fi < |fs| :: fi in engaged <==> sel.Engages(fs[fi].rule.id)
    ensures Drafted(fs, f.paths, home, opts, picked, engaged, |fs|, ds, skips)
    ensures forall a :: a in matched <==> Marked(sel, fs, |fs|, a)
  {
    ds, skips, matched := [], [], {};
    for fi := 0 to |fs|
      invariant Drafted(fs, f.paths, home, opts, picked, engaged, fi, ds, skips)
      invariant forall a :: a in matched <==> Marked(sel, fs, fi, a)
    {
      ghost var matched0 := matched;
      var refs, engages, partial;
      refs, engages, partial, matched := ItemsFor(sel, fs, fi, matched);
      MarkedNext(sel, fs, fi, refs, matched0, matched);
      var more: seq<Draft>, moreSkips: seq<Skip> := [], [];
      if engages {
        if !fs[fi].rule.risk.Actionable() {
          moreSkips := [Reported(fs[fi])];
          ReportsIt(fs, f.paths, home, opts, picked, engaged, fi, refs, moreSkips[0]);
        } else if refs != [] {
          PartialMeans(fs, picked, fi, refs, partial);
          more, moreSkips := DraftFinding(fs, f, home, opts, picked, engaged, fi, refs, partial);
        }
      }
      DraftedNext(fs, f.paths, home, opts, picked, engaged, fi, ds, skips, refs, more, moreSkips);
      ds := ds + more;
      skips := skips + moreSkips;
    }
  }

  lemma ReportsIt(fs: seq<Finding>, ps: PathMap, home: string, opts: Options, picked: set<Ref>, engaged: set<nat>,
                  fi: nat, refs: seq<Ref>, s: Skip)
    requires PicksOf(fs, picked, fi, refs) && fi in engaged && !fs[fi].rule.risk.Actionable() && s == Reported(fs[fi])
    ensures FindingDrafts(fs, ps, home, opts, picked, engaged, fi, refs, [], [s])
  {
    assert s in [s];
  }

  lemma PartialMeans(fs: seq<Finding>, picked: set<Ref>, fi: nat, refs: seq<Ref>, partial: bool)
    requires PicksOf(fs, picked, fi, refs) && partial == exists r: Ref ::
      r.finding == fi && ValidRef(fs, r) && r !in refs
    ensures partial == !AllPicked(fs, picked, fi)
  {
    if !AllPicked(fs, picked, fi) {
      var i :| 0 <= i < |fs[fi].items| && Ref(fi, i) !in picked;
      assert ValidRef(fs, Ref(fi, i));
    } else {
      assert forall r: Ref | r.finding == fi && ValidRef(fs, r) :: Ref(fi, r.item) == r;
    }
  }

  // ---- what every plan promises ----

  ghost function Targets(plan: Plan): set<Ref> {
    PlannedBy(plan.drafts)
  }

  /** The draft before its bytes and includes were filled in. */
  function Unsettled(d: Draft): Draft {
    d.(action := d.action.(bytes := 0, includes := []))
  }

  ghost predicate SafeDraft(fs: seq<Finding>, ps: PathMap, home: string, opts: Options, picked: set<Ref>, d: Draft) {
    && d.items != [] && Sound(fs, ps, home, opts, d.items[0].finding, Unsettled(d))
    && forall r <- d.items :: r in picked
  }

  /** Every action deletes picked items of one actionable rule, none two actions
      delete, none containing or sharing a surface-only item's path. */
  ghost predicate Safe(fs: seq<Finding>, ps: PathMap, home: string, opts: Options, picked: set<Ref>, plan: Plan) {
    (forall d <- plan.drafts :: SafeDraft(fs, ps, home, opts, picked, d)) && NoneShared(plan.drafts)
  }

  /** An action's bytes count those of its items no other action holds, and
      there is at least one. */
  ghost predicate Counted(fs: seq<Finding>, ps: PathMap, targets: set<Ref>, d: Draft) {
    && RefsValid(fs, d.items)
    && d.action.bytes == UncoveredBytes(fs, ps, targets, d.items)
    && KeptDraft(ps, targets, d)
  }

  /** What empties the Trash runs first; otherwise findings keep their order. */
  ghost predicate Arranged(drafts: seq<Draft>) {
    forall i, j | 0 <= i < j < |drafts| ::
      if drafts[i].action.emptiesTrash == drafts[j].action.emptiesTrash then Before(drafts[i], drafts[j])
      else drafts[i].action.emptiesTrash
  }

  /** The picked items that may be planned. */
  ghost function Wanted(fs: seq<Finding>, ps: PathMap, home: string, opts: Options, picked: set<Ref>): set<Ref> {
    set r | r in picked && Plannable(fs, ps, home, opts, picked, r)
  }

  /** r's action has something of its own to delete: r, or for a whole-rule
      command any of the rule's items, is not inside another wanted item. */
  ghost predicate StandsAlone(fs: seq<Finding>, ps: PathMap, wanted: set<Ref>, r: Ref)
    requires ValidRef(fs, r)
  {
    if Whole(RuleOf(fs, r)) then exists i :: 0 <= i < |fs[r.finding].items| && !Covered(ps, wanted, Ref(r.finding, i))
    else !Covered(ps, wanted, r)
  }

  /** The plan deletes just the wanted items whose action has something of its own. */
  ghost predicate TargetsExact(fs: seq<Finding>, ps: PathMap, wanted: set<Ref>, plan: Plan) {
    forall r :: r in Targets(plan) <==> r in wanted && ValidRef(fs, r) && StandsAlone(fs, ps, wanted, r)
  }

  /** What goes along with each action, unplanned, is listed on it, once. */
  ghost predicate IncludesExact(ps: PathMap, wanted: set<Ref>, plan: Plan) {
    forall d <- plan.drafts :: IncludesRight(ps, wanted, d.items, d.action.includes)
  }

  /** And on no other action. */
  ghost predicate IncludedOnce(plan: Plan) {
    forall i, j, c | 0 <= i < j < |plan.drafts| && c in plan.drafts[i].action.includes ::
      c !in plan.drafts[j].action.includes
  }

  /** "inside X, also selected" names an X that an action deletes, with a picked
      item of the skipped rule below it. */
  ghost predicate InsideHolds(fs: seq<Finding>, ps: PathMap, picked: set<Ref>, plan: Plan, s: Skip) {
    exists x, r :: NamesCover(fs, ps, picked, plan, s, x, r)
  }

  ghost predicate NamesCover(fs: seq<Finding>, ps: PathMap, picked: set<Ref>, plan: Plan, s: Skip, x: Ref, r: Ref) {
    && x in Targets(plan) && ValidRef(fs, x) && r in picked && ValidRef(fs, r)
    && Above(ps, x, r) && s.reason == Inside(RefID(fs, x)) && s.ruleID == RuleOf(fs, r).id
  }

  /** Every picked item is deleted by an action or named by a skip, every
      surface-only rule that was asked for is reported, and every skip is true. */
  ghost predicate SkipsRight(fs: seq<Finding>, ps: PathMap, home: string, opts: Options, picked: set<Ref>,
                             engaged: set<nat>, plan: Plan) {
    && (forall r <- picked :: ValidRef(fs, r) && (r in Targets(plan) || Named(fs, plan.skipped, r)))
    && ReportedAll(fs, engaged, |fs|, plan.skipped)
    && forall s <- plan.skipped ::
         Justified(fs, ps, home, opts, picked, engaged, s) || InsideHolds(fs, ps, picked, plan, s)
  }

  ghost predicate PlanOk(fs: seq<Finding>, ps: PathMap, home: string, opts: Options, picked: set<Ref>,
                         engaged: set<nat>, plan: Plan) {
    && Safe(fs, ps, home, opts, picked, plan)
    && (forall d <- plan.drafts :: Counted(fs, ps, Targets(plan), d))
    && Arranged(plan.drafts)
    && TargetsExact(fs, ps, Wanted(fs, ps, home, opts, picked), plan)
    && IncludesExact(ps, Wanted(fs, ps, home, opts, picked), plan) && IncludedOnce(plan)
    && SkipsRight(fs, ps, home, opts, picked, engaged, plan)
  }

  /** No plan deletes a path that holds or is a surface-only item's, whichever
      rule comes first. */
  lemma NeverSurfaceOnly(fs: seq<Finding>, home: string, opts: Options, picked: set<Ref>, engaged: set<nat>, plan: Plan,
                         r: Ref, c: Ref)
    requires PlanOk(fs, PathsOf(fs), home, opts, picked, engaged, plan) && r in Targets(plan)
    requires HasPath(fs, r) && HasPath(fs, c) && !RuleOf(fs, c).risk.Actionable()
    ensures !Contains(PathOf(fs, r), PathOf(fs, c))
  {
    TargetSafe(fs, PathsOf(fs), home, opts, picked, plan, r);
    assert SurfaceOnlyItem(fs, c);
  }

  lemma TargetSafe(fs: seq<Finding>, ps: PathMap, home: string, opts: Options, picked: set<Ref>, plan: Plan, r: Ref)
    requires Safe(fs, ps, home, opts, picked, plan) && r in Targets(plan)
    ensures NoConflict(fs, ps, r)
  {
    var d :| d in plan.drafts && r in d.items;
    assert SafeDraft(fs, ps, home, opts, picked, d);
  }

  /** A wanted item is deleted: by an action of its own rule, or by one over it. */
  lemma WantedIsDeleted(fs: seq<Finding>, ps: PathMap, home: string, opts: Options, picked: set<Ref>, engaged: set<nat>,
                        plan: Plan, r: Ref)
    requires PlanOk(fs, ps, home, opts, picked, engaged, plan) && Plannable(fs, ps, home, opts, picked, r)
    ensures r in Targets(plan) || Covered(ps, Targets(plan), r)
  {
    var wanted := Wanted(fs, ps, home, opts, picked);
    if r !in Targets(plan) {
      assert Covered(ps, wanted, r) by {
        if Whole(RuleOf(fs, r)) { assert Ref(r.finding, r.item) == r; }
      }
      var top := TopmostPlanned(ps, wanted, r);
      if Whole(RuleOf(fs, top)) { assert Ref(top.finding, top.item) == top; }
    }
  }

  /** BuildPlanWith. */
  method BuildPlan(home: string, findings: seq<Finding>, selected: map<string, bool>, opts: Options)
    returns (plan: Plan)
    ensures var fs := WithItemKeys(findings, home);
      && PlanOk(fs, PathsOf(fs), home, opts, PickedRefs(selected, fs), EngagedRules(selected, fs), plan)
      && (RuleIDsDistinct(fs) ==>
            forall atom :: atom in plan.unmatched <==> On(selected, atom) && !Addressed(selected, fs, atom))
  {
    var sel := ParseSelection(selected);
    var keyed := WithItemKeys(findings, home);
    ghost var fs := keyed;
    ghost var picked, engaged := PickedRefs(selected, fs), EngagedRules(selected, fs);
    PicksArePicked(selected, sel, fs);
    UnmatchedIfDistinct(selected, sel, fs);
    if sel.Empty() {
      plan := Plan([], [], {});
      NothingPlanned(fs, PathsOf(fs), home, opts, sel, picked, engaged, plan);
      NoAtoms(selected, sel);
      return;
    }
    var f := BuildForest(keyed);
    var ds, skips, matched := DraftAll(keyed, f, home, opts, sel, picked, engaged);
    DraftsDistinct(fs, f.paths, home, opts, picked, ds);
    var kept, more := ResolveNesting(keyed, f, ds);
    var unmatched := FindUnmatched(sel, keyed, matched);
    plan := Plan(kept, skips + more, unmatched);
    Finished(fs, f.paths, home, opts, picked, engaged, ds, skips, kept, more, plan);
  }

  lemma DraftsDistinct(fs: seq<Finding>, ps: PathMap, home: string, opts: Options, picked: set<Ref>, ds: seq<Draft>)
    requires forall d <- ds :: DraftOk(fs, ps, home, opts, picked, |fs|, d)
    ensures forall d <- ds :: d.items != [] && RefsValid(fs, d.items) && Distinct(d.items)
  {
    forall d <- ds ensures d.items != [] && RefsValid(fs, d.items) && Distinct(d.items) {
      assert Ascending(d.items);
    }
  }

  lemma NothingPlanned(fs: seq<Finding>, ps: PathMap, home: string, opts: Options, sel: Selection, picked: set<Ref>,
                       engaged: set<nat>, plan: Plan)
    requires sel.Empty() && plan == Plan([], [], {})
    requires forall r :: sel.Picks(fs, r) <==> r in picked
    requires forall fi: nat | fi < |fs| :: fi in engaged <==> sel.Engages(fs[fi].rule.id)
    ensures PlanOk(fs, ps, home, opts, picked, engaged, plan)
  {
    assert forall r :: r !in picked;
    assert forall r :: r !in Targets(plan);
  }

  lemma NoAtoms(selected: map<string, bool>, sel: Selection)
    requires sel.Empty() && Parsed(selected, sel)
    ensures forall atom :: !On(selected, atom)
  {
    forall atom ensures !On(selected, atom) {
      var (id, key, isItem) := SplitItemID(atom);
      assert !isItem ==> (atom in sel.rules <==> On(selected, atom) && '/' !in atom);
      assert isItem ==> (sel.HasItem(id, key) <==> On(selected, ItemID(id, key)) && '/' !in id);
    }
  }

  lemma PicksArePicked(selected: map<string, bool>, sel: Selection, fs: seq<Finding>)
    requires Parsed(selected, sel)
    ensures forall r :: sel.Picks(fs, r) <==> r in PickedRefs(selected, fs)
    ensures forall fi: nat | fi < |fs| :: fi in EngagedRules(selected, fs) <==> sel.Engages(fs[fi].rule.id)
  {
    forall fi: nat | fi < |fs| ensures fi in EngagedRules(selected, fs) <==> sel.Engages(fs[fi].rule.id) {
      EngagesExactly(selected, sel, fs[fi].rule.id);
    }
  }

  lemma EngagesExactly(selected: map<string, bool>, sel: Selection, id: string)
    requires Parsed(selected, sel)
    ensures sel.Engages(id) <==> Engaged(selected, id)
  {
    if id in sel.items && sel.items[id] != {} {
      var key :| key in sel.items[id];
      assert sel.HasItem(id, key);
    }
    if key :| On(selected, ItemID(id, key)) && '/' !in id {
      assert sel.HasItem(id, key);
    }
  }

  lemma UnmatchedIfDistinct(selected: map<string, bool>, sel: Selection, fs: seq<Finding>)
    requires Parsed(selected, sel)
    ensures RuleIDsDistinct(fs) ==> forall atom ::
      Unmatched(sel, fs, atom) <==> On(selected, atom) && !Addressed(selected, fs, atom)
  {
    if RuleIDsDistinct(fs) { UnmatchedExactly(selected, sel, fs); }
  }

  // ---- from the drafts to the plan ----

  lemma {:induction false} SurvivorsFrom(fs: seq<Finding>, ps: PathMap, planned: set<Ref>, ds: seq<Draft>, first: bool)
    requires forall d <- ds :: RefsValid(fs, d.items)
    ensures forall s <- Survivors(fs, ps, planned, ds, first) :: exists d <- ds ::
      KeptDraft(ps, planned, d) && s == Settled(fs, ps, planned, d) && d.action.emptiesTrash == first
  {
    if ds != [] {
      var rest, d := ds[..|ds| - 1], ds[|ds| - 1];
      assert forall e <- ds :: e in rest || e == d;
      SurvivorsFrom(fs, ps, planned, rest, first);
    }
  }

  lemma {:induction false} SurvivorsHold(fs: seq<Finding>, ps: PathMap, planned: set<Ref>, ds: seq<Draft>, first: bool)
    requires forall d <- ds :: RefsValid(fs, d.items)
    ensures forall d <- ds | KeptDraft(ps, planned, d) && d.action.emptiesTrash == first ::
      Settled(fs, ps, planned, d) in Survivors(fs, ps, planned, ds, first)
  {
    if ds != [] {
      var rest, d := ds[..|ds| - 1], ds[|ds| - 1];
      assert forall e <- ds :: e in rest || e == d;
      SurvivorsHold(fs, ps, planned, rest, first);
    }
  }

  lemma {:induction false} SurvivorsApart(fs: seq<Finding>, ps: PathMap, planned: set<Ref>, ds: seq<Draft>, first: bool)
    requires (forall d <- ds :: RefsValid(fs, d.items)) && NoneShared(ds) && InOrder(ds)
    ensures NoneShared(Survivors(fs, ps, planned, ds, first)) && InOrder(Survivors(fs, ps, planned, ds, first))
  {
    if ds != [] {
      var rest := ds[..|ds| - 1];
      SurvivorsApart(fs, ps, planned, rest, first);
      SurvivorsFrom(fs, ps, planned, rest, first);
      LastApart(fs, ps, planned, ds, Survivors(fs, ps, planned, rest, first));
    }
  }

  lemma LastApart(fs: seq<Finding>, ps: PathMap, planned: set<Ref>, ds: seq<Draft>, before: seq<Draft>)
    requires ds != [] && (forall d <- ds :: RefsValid(fs, d.items))
    requires NoneShared(ds) && NoneShared(before) && InOrder(ds) && InOrder(before)
    requires forall s <- before :: exists d <- ds[..|ds| - 1] :: s.items == d.items
    ensures var all := before + [Settled(fs, ps, planned, ds[|ds| - 1])]; NoneShared(all) && InOrder(all)
  {
    var last := ds[|ds| - 1];
    forall i | 0 <= i < |before|
      ensures Before(before[i], last)
      ensures forall r <- before[i].items :: r !in last.items
    {
      assert before[i] in before;
      var d :| d in ds[..|ds| - 1] && before[i].items == d.items;
      var k :| 0 <= k < |ds| - 1 && ds[k] == d;
      assert Before(ds[k], ds[|ds| - 1]);
    }
  }

  /** d came from the draft e, which stays in the plan. */
  ghost predicate CameFrom(fs: seq<Finding>, ps: PathMap, ds: seq<Draft>, d: Draft, e: Draft) {
    && e in ds && KeptDraft(ps, PlannedBy(ds), e) && RefsValid(fs, e.items)
    && d.(action := d.action.(includes := [])) == Settled(fs, ps, PlannedBy(ds), e)
  }

  /** The kept drafts, against those that were drafted. */
  ghost predicate Keeps(fs: seq<Finding>, ps: PathMap, ds: seq<Draft>, kept: seq<Draft>) {
    && (forall d <- ds :: RefsValid(fs, d.items))
    && Bare(kept) == Survivors(fs, ps, PlannedBy(ds), ds, true) + Survivors(fs, ps, PlannedBy(ds), ds, false)
  }

  /** Every item of a draft that is kept is in the plan. */
  ghost predicate HoldsKept(ps: PathMap, ds: seq<Draft>, targets: set<Ref>) {
    forall e <- ds | KeptDraft(ps, PlannedBy(ds), e) :: forall x <- e.items :: x in targets
  }

  lemma KeptFrom(fs: seq<Finding>, ps: PathMap, ds: seq<Draft>, kept: seq<Draft>)
    requires Keeps(fs, ps, ds, kept)
    ensures forall d <- kept :: exists e :: CameFrom(fs, ps, ds, d, e)
    ensures HoldsKept(ps, ds, PlannedBy(kept))
  {
    var planned := PlannedBy(ds);
    forall i | 0 <= i < |kept| ensures exists e :: CameFrom(fs, ps, ds, kept[i], e) {
      var e := KeptAt(fs, ps, ds, kept, i);
    }
    forall e <- ds | KeptDraft(ps, planned, e) ensures forall x <- e.items :: x in PlannedBy(kept) {
      var i := KeptWhere(fs, ps, ds, kept, e);
      assert kept[i] in kept;
    }
  }

  lemma KeptWhere(fs: seq<Finding>, ps: PathMap, ds: seq<Draft>, kept: seq<Draft>, e: Draft) returns (i: nat)
    requires Keeps(fs, ps, ds, kept)
    requires e in ds && KeptDraft(ps, PlannedBy(ds), e)
    ensures i < |kept| && kept[i].items == e.items
  {
    SurvivorsHold(fs, ps, PlannedBy(ds), ds, e.action.emptiesTrash);
    var s := Settled(fs, ps, PlannedBy(ds), e);
    assert s in Bare(kept);
    i :| 0 <= i < |kept| && Bare(kept)[i] == s;
    assert Bare(kept)[i].items == kept[i].items;
  }

  lemma KeptAt(fs: seq<Finding>, ps: PathMap, ds: seq<Draft>, kept: seq<Draft>, i: nat) returns (e: Draft)
    requires Keeps(fs, ps, ds, kept) && i < |kept|
    ensures CameFrom(fs, ps, ds, kept[i], e) && kept[i].items == e.items
    ensures kept[i].action.emptiesTrash == e.action.emptiesTrash == (i < |Survivors(fs, ps, PlannedBy(ds), ds, true)|)
  {
    var a, b := Survivors(fs, ps, PlannedBy(ds), ds, true), Survivors(fs, ps, PlannedBy(ds), ds, false);
    assert Bare(kept)[i] == if i < |a| then a[i] else b[i - |a|];
    e := KeptOne(fs, ps, ds, Bare(kept)[i], i < |a|);
    assert Bare(kept)[i].items == kept[i].items;
  }

  lemma KeptOne(fs: seq<Finding>, ps: PathMap, ds: seq<Draft>, s: Draft, first: bool) returns (e: Draft)
    requires forall d <- ds :: RefsValid(fs, d.items)
    requires s in Survivors(fs, ps, PlannedBy(ds), ds, first)
    ensures e in ds && KeptDraft(ps, PlannedBy(ds), e) && s == Settled(fs, ps, PlannedBy(ds), e)
      && e.action.emptiesTrash == first
  {
    SurvivorsFrom(fs, ps, PlannedBy(ds), ds, first);
    e :| e in ds && KeptDraft(ps, PlannedBy(ds), e) && s == Settled(fs, ps, PlannedBy(ds), e)
      && e.action.emptiesTrash == first;
  }

  lemma KeptApart(fs: seq<Finding>, ps: PathMap, ds: seq<Draft>, kept: seq<Draft>)
    requires Keeps(fs, ps, ds, kept) && NoneShared(ds) && InOrder(ds)
    ensures NoneShared(kept) && Arranged(kept)
  {
    SurvivorsApart(fs, ps, PlannedBy(ds), ds, true);
    SurvivorsApart(fs, ps, PlannedBy(ds), ds, false);
    forall i, j | 0 <= i < j < |kept|
      ensures if kept[i].action.emptiesTrash == kept[j].action.emptiesTrash then Before(kept[i], kept[j])
        else kept[i].action.emptiesTrash
      ensures forall r <- kept[i].items :: r !in kept[j].items
    {
      PairApart(fs, ps, ds, kept, i, j);
    }
  }

  lemma PairApart(fs: seq<Finding>, ps: PathMap, ds: seq<Draft>, kept: seq<Draft>, i: nat, j: nat)
    requires Keeps(fs, ps, ds, kept) && NoneShared(ds)
    requires forall b: bool :: var s := Survivors(fs, ps, PlannedBy(ds), ds, b); NoneShared(s) && InOrder(s)
    requires i < j < |kept|
    ensures if kept[i].action.emptiesTrash == kept[j].action.emptiesTrash then Before(kept[i], kept[j])
      else kept[i].action.emptiesTrash
    ensures forall r <- kept[i].items :: r !in kept[j].items
  {
    var a, b := Survivors(fs, ps, PlannedBy(ds), ds, true), Survivors(fs, ps, PlannedBy(ds), ds, false);
    var d := KeptAt(fs, ps, ds, kept, i);
    var e := KeptAt(fs, ps, ds, kept, j);
    if i < |a| && j >= |a| {
      assert d != e;
      forall r <- d.items ensures r !in e.items { SharedBy(ds, d, e, r); }
    } else {
      var all := if j < |a| then a else b;
      var x, y := if j < |a| then i else i - |a|, if j < |a| then j else j - |a|;
      assert Bare(kept)[i] == all[x] && Bare(kept)[j] == all[y];
      assert all[x].items == kept[i].items && all[y].items == kept[j].items;
      assert Before(all[x], all[y]);
    }
  }

  lemma SharedBy(ds: seq<Draft>, d: Draft, e: Draft, r: Ref)
    requires NoneShared(ds) && d in ds && e in ds && d != e && r in d.items
    ensures r !in e.items
  {
    var i :| 0 <= i < |ds| && ds[i] == d;
    var j :| 0 <= j < |ds| && ds[j] == e;
  }

  /** Covered by a drafted item is covered by one whose action runs. */
  lemma CoveredByKept(ps: PathMap, ds: seq<Draft>, targets: set<Ref>, r: Ref)
    requires (forall x <- targets :: x in PlannedBy(ds)) && HoldsKept(ps, ds, targets)
    ensures Covered(ps, PlannedBy(ds), r) <==> Covered(ps, targets, r)
  {
    if Covered(ps, PlannedBy(ds), r) {
      var top := TopmostPlanned(ps, PlannedBy(ds), r);
      var e :| e in ds && top in e.items;
      assert KeptDraft(ps, PlannedBy(ds), e);
    }
  }

  lemma {:induction false} SameUncovered(fs: seq<Finding>, ps: PathMap, a: set<Ref>, b: set<Ref>, items: seq<Ref>)
    requires RefsValid(fs, items)
    requires forall r :: Covered(ps, a, r) <==> Covered(ps, b, r)
    ensures UncoveredBytes(fs, ps, a, items) == UncoveredBytes(fs, ps, b, items)
  {
    if items != [] { SameUncovered(fs, ps, a, b, items[..|items| - 1]); }
  }

  lemma TargetsOfKept(fs: seq<Finding>, ps: PathMap, ds: seq<Draft>, kept: seq<Draft>)
    requires (forall d <- kept :: exists e :: CameFrom(fs, ps, ds, d, e)) && HoldsKept(ps, ds, PlannedBy(kept))
    ensures forall x <- PlannedBy(kept) :: exists e <- ds :: KeptDraft(ps, PlannedBy(ds), e) && x in e.items
    ensures forall r :: Covered(ps, PlannedBy(ds), r) <==> Covered(ps, PlannedBy(kept), r)
  {
    forall x <- PlannedBy(kept)
      ensures x in PlannedBy(ds) && exists e <- ds :: KeptDraft(ps, PlannedBy(ds), e) && x in e.items
    {
      var d :| d in kept && x in d.items;
      var e :| CameFrom(fs, ps, ds, d, e);
    }
    forall r ensures Covered(ps, PlannedBy(ds), r) <==> Covered(ps, PlannedBy(kept), r) {
      CoveredByKept(ps, ds, PlannedBy(kept), r);
    }
  }

  /** What was drafted is just what may be planned. */
  lemma DraftedIsWanted(fs: seq<Finding>, ps: PathMap, home: string, opts: Options, picked: set<Ref>, engaged: set<nat>,
                        ds: seq<Draft>, skips: seq<Skip>)
    requires Drafted(fs, ps, home, opts, picked, engaged, |fs|, ds, skips)
    requires forall r <- picked :: ValidRef(fs, r)
    ensures PlannedBy(ds) == Wanted(fs, ps, home, opts, picked)
  {
    forall r <- PlannedBy(ds) ensures Plannable(fs, ps, home, opts, picked, r) {
      var d :| d in ds && r in d.items;
      DraftPlannable(fs, ps, home, opts, picked, d, r);
    }
    forall r <- Wanted(fs, ps, home, opts, picked) ensures r in PlannedBy(ds) {
      assert Settles(fs, ps, home, opts, picked, ds, skips, r);
    }
  }

  lemma DraftPlannable(fs: seq<Finding>, ps: PathMap, home: string, opts: Options, picked: set<Ref>, d: Draft, r: Ref)
    requires DraftOk(fs, ps, home, opts, picked, |fs|, d) && r in d.items
    ensures Plannable(fs, ps, home, opts, picked, r)
  {
    var fi := d.items[0].finding;
    assert r.finding == fi;
    if !Whole(fs[fi].rule) { assert d.items[0] == r; }
  }

  /** A draft is kept exactly when its items have something of their own. */
  lemma KeptStandsAlone(fs: seq<Finding>, ps: PathMap, home: string, opts: Options, picked: set<Ref>, planned: set<Ref>,
                        d: Draft, r: Ref)
    requires DraftOk(fs, ps, home, opts, picked, |fs|, d) && r in d.items
    ensures ValidRef(fs, r) && (KeptDraft(ps, planned, d) <==> StandsAlone(fs, ps, planned, r))
  {
    var fi := d.items[0].finding;
    if Whole(fs[fi].rule) {
      if x :| x in d.items && !Covered(ps, planned, x) { assert Ref(fi, x.item) == x; }
      if i :| 0 <= i < |fs[fi].items| && !Covered(ps, planned, Ref(fi, i)) { assert Ref(fi, i) in d.items; }
    } else {
      assert d.items == [r];
    }
  }

  lemma FinishedTargets(fs: seq<Finding>, ps: PathMap, home: string, opts: Options, picked: set<Ref>, ds: seq<Draft>,
                        wanted: set<Ref>, plan: Plan)
    requires (forall d <- ds :: DraftOk(fs, ps, home, opts, picked, |fs|, d)) && wanted == PlannedBy(ds)
    requires HoldsKept(ps, ds, Targets(plan))
    requires forall x <- Targets(plan) :: exists e <- ds :: KeptDraft(ps, wanted, e) && x in e.items
    ensures TargetsExact(fs, ps, wanted, plan)
  {
    forall r ensures r in Targets(plan) <==> r in wanted && ValidRef(fs, r) && StandsAlone(fs, ps, wanted, r) {
      if r in Targets(plan) {
        var e :| e in ds && KeptDraft(ps, wanted, e) && r in e.items;
        KeptStandsAlone(fs, ps, home, opts, picked, wanted, e, r);
      } else if r in wanted {
        var e :| e in ds && r in e.items;
        KeptStandsAlone(fs, ps, home, opts, picked, wanted, e, r);
      }
    }
  }

  lemma FinishedDraft(fs: seq<Finding>, ps: PathMap, home: string, opts: Options, picked: set<Ref>, ds: seq<Draft>,
                      targets: set<Ref>, d: Draft)
    requires forall e <- ds :: DraftOk(fs, ps, home, opts, picked, |fs|, e)
    requires exists e :: CameFrom(fs, ps, ds, d, e)
    requires forall r :: Covered(ps, PlannedBy(ds), r) <==> Covered(ps, targets, r)
    ensures SafeDraft(fs, ps, home, opts, picked, d) && Counted(fs, ps, targets, d)
  {
    var e :| CameFrom(fs, ps, ds, d, e);
    assert Unsettled(d) == e;
    SameUncovered(fs, ps, PlannedBy(ds), targets, e.items);
  }

  lemma FinishedDrafts(fs: seq<Finding>, ps: PathMap, home: string, opts: Options, picked: set<Ref>, engaged: set<nat>,
                       ds: seq<Draft>, skips: seq<Skip>, plan: Plan)
    requires Drafted(fs, ps, home, opts, picked, engaged, |fs|, ds, skips)
    requires Keeps(fs, ps, ds, plan.drafts)
    ensures Safe(fs, ps, home, opts, picked, plan) && Arranged(plan.drafts)
    ensures forall d <- plan.drafts :: Counted(fs, ps, Targets(plan), d)
    ensures HoldsKept(ps, ds, Targets(plan))
    ensures forall x <- Targets(plan) :: exists e <- ds :: KeptDraft(ps, PlannedBy(ds), e) && x in e.items
  {
    KeptFrom(fs, ps, ds, plan.drafts);
    KeptApart(fs, ps, ds, plan.drafts);
    TargetsOfKept(fs, ps, ds, plan.drafts);
    FinishedEach(fs, ps, home, opts, picked, ds, Targets(plan), plan.drafts);
  }

  lemma FinishedEach(fs: seq<Finding>, ps: PathMap, home: string, opts: Options, picked: set<Ref>, ds: seq<Draft>,
                     targets: set<Ref>, kept: seq<Draft>)
    requires forall e <- ds :: DraftOk(fs, ps, home, opts, picked, |fs|, e)
    requires forall d <- kept :: exists e :: CameFrom(fs, ps, ds, d, e)
    requires forall r :: Covered(ps, PlannedBy(ds), r) <==> Covered(ps, targets, r)
    ensures forall d <- kept :: SafeDraft(fs, ps, home, opts, picked, d) && Counted(fs, ps, targets, d)
  {
    forall d <- kept ensures SafeDraft(fs, ps, home, opts, picked, d) && Counted(fs, ps, targets, d) {
      FinishedDraft(fs, ps, home, opts, picked, ds, targets, d);
    }
  }

  lemma Finished(fs: seq<Finding>, ps: PathMap, home: string, opts: Options, picked: set<Ref>, engaged: set<nat>,
                 ds: seq<Draft>, skips: seq<Skip>, kept: seq<Draft>, more: seq<Skip>, plan: Plan)
    requires Drafted(fs, ps, home, opts, picked, engaged, |fs|, ds, skips)
    requires forall r <- picked :: ValidRef(fs, r)
    requires Keeps(fs, ps, ds, kept) && AllNamed(fs, ps, ds, |ds|, more) && OnlyDropped(fs, ps, ds, more)
    requires forall d <- kept :: IncludesRight(ps, PlannedBy(ds), d.items, d.action.includes)
    requires plan.drafts == kept && plan.skipped == skips + more
    ensures PlanOk(fs, ps, home, opts, picked, engaged, plan)
  {
    FinishedDrafts(fs, ps, home, opts, picked, engaged, ds, skips, plan);
    DraftedIsWanted(fs, ps, home, opts, picked, engaged, ds, skips);
    FinishedTargets(fs, ps, home, opts, picked, ds, PlannedBy(ds), plan);
    NoneIncludedTwice(fs, ps, PlannedBy(ds), plan);
    forall r <- picked ensures r in Targets(plan) || Named(fs, plan.skipped, r) {
      PickedAnswered(fs, ps, home, opts, picked, ds, skips, more, plan, r);
    }
    SkipsTrue(fs, ps, home, opts, picked, engaged, ds, skips, more, plan);
  }

  lemma NoneIncludedTwice(fs: seq<Finding>, ps: PathMap, wanted: set<Ref>, plan: Plan)
    requires NoneShared(plan.drafts) && IncludesExact(ps, wanted, plan) && forall r <- Targets(plan) :: r in wanted
    ensures IncludedOnce(plan)
  {
    forall i, j, c | 0 <= i < j < |plan.drafts| && c in plan.drafts[i].action.includes
      ensures c !in plan.drafts[j].action.includes
    {
      var d, e := plan.drafts[i], plan.drafts[j];
      assert d in plan.drafts && e in plan.drafts;
      if c in e.action.includes {
        var r :| r in d.items && !Covered(ps, wanted, r) && GoesAlong(ps, wanted, r, c);
        var q :| q in e.items && !Covered(ps, wanted, q) && GoesAlong(ps, wanted, q, c);
        assert r in Targets(plan) && q in Targets(plan);
        AlongOnce(ps, wanted, r, q, c);
      }
    }
  }

  lemma PickedAnswered(fs: seq<Finding>, ps: PathMap, home: string, opts: Options, picked: set<Ref>, ds: seq<Draft>,
                       skips: seq<Skip>, more: seq<Skip>, plan: Plan, r: Ref)
    requires (forall d <- ds :: DraftOk(fs, ps, home, opts, picked, |fs|, d))
      && Settles(fs, ps, home, opts, picked, ds, skips, r)
    requires HoldsKept(ps, ds, Targets(plan)) && AllNamed(fs, ps, ds, |ds|, more) && plan.skipped == skips + more
    ensures r in Targets(plan) || Named(fs, plan.skipped, r)
  {
    if InDraft(ds, r) {
      var d :| d in ds && r in d.items;
      if !KeptDraft(ps, PlannedBy(ds), d) {
        var k :| 0 <= k < |ds| && ds[k] == d;
        var s :| s in more && DroppedFor(fs, ps, ds, d, s);
        DroppedNames(fs, ps, home, opts, picked, ds, d, s, r);
        assert Named(fs, more, r);
      }
    }
    InMore(fs, ds, [], skips, more, r);
  }

  lemma DroppedNames(fs: seq<Finding>, ps: PathMap, home: string, opts: Options, picked: set<Ref>, ds: seq<Draft>,
                     d: Draft, s: Skip, r: Ref)
    requires DraftOk(fs, ps, home, opts, picked, |fs|, d) && r in d.items && DroppedFor(fs, ps, ds, d, s)
    ensures ValidRef(fs, r) && s.ruleID == RuleOf(fs, r).id && (s.itemKey == "" || s.itemKey == ItemAt(fs, r).key)
  {
    var fi := d.items[0].finding;
    if !Whole(fs[fi].rule) { assert d.items[0] == r; }
  }

  lemma SkipsTrue(fs: seq<Finding>, ps: PathMap, home: string, opts: Options, picked: set<Ref>, engaged: set<nat>,
                  ds: seq<Draft>, skips: seq<Skip>, more: seq<Skip>, plan: Plan)
    requires Drafted(fs, ps, home, opts, picked, engaged, |fs|, ds, skips)
    requires HoldsKept(ps, ds, Targets(plan)) && OnlyDropped(fs, ps, ds, more) && plan.skipped == skips + more
    ensures ReportedAll(fs, engaged, |fs|, plan.skipped)
    ensures forall s <- plan.skipped ::
      Justified(fs, ps, home, opts, picked, engaged, s) || InsideHolds(fs, ps, picked, plan, s)
  {
    forall s <- more ensures InsideHolds(fs, ps, picked, plan, s) {
      var d :| d in ds && !KeptDraft(ps, PlannedBy(ds), d) && DroppedFor(fs, ps, ds, d, s);
      assert DraftOk(fs, ps, home, opts, picked, |fs|, d) && d.items[0] in d.items;
      InsideOne(fs, ps, picked, ds, plan, d, s);
    }
  }

  lemma InsideOne(fs: seq<Finding>, ps: PathMap, picked: set<Ref>, ds: seq<Draft>, plan: Plan, d: Draft, s: Skip)
    requires d.items != [] && d.items[0] in picked && ValidRef(fs, d.items[0])
      && d.action.ruleID == RuleOf(fs, d.items[0]).id
    requires DroppedFor(fs, ps, ds, d, s) && HoldsKept(ps, ds, Targets(plan))
    ensures InsideHolds(fs, ps, picked, plan, s)
  {
    var cover, over :| CoversFirst(fs, ps, ds, d, s, cover, over);
    assert NamesCover(fs, ps, picked, plan, s, cover, d.items[0]);
  }
}
