// The plan's total is the measure of a union: no file is counted twice, and
// none that an action deletes is left out.
module PlanBytes {
  import opened Paths
  import opened Catalog
  import opened Forest
  import opened Nesting
  import opened Planner

  datatype File = File(path: CleanPath, size: int)

  /** The file lies at or under the path of one of the items. */
  ghost predicate UnderSome(ps: PathMap, rs: set<Ref>, x: File) {
    exists r :: r in rs && r in ps && Contains(ps[r], x.path)
  }

  /** The bytes of the files under at least one of the items, each file once. */
  ghost function Measure(ps: PathMap, files: seq<File>, rs: set<Ref>): int {
    if files == [] then 0
    else (if UnderSome(ps, rs, files[0]) then files[0].size else 0) + Measure(ps, files[1..], rs)
  }

  /** A file adds its size once when an item's path is its own or a folder above it, and
      nothing when none is. */
  lemma OneFileMore(ps: PathMap, x: File, files: seq<File>, rs: set<Ref>)
    ensures Measure(ps, [], rs) == 0
    ensures (exists r <- rs :: r in ps && Contains(ps[r], x.path)) ==>
      Measure(ps, [x] + files, rs) == x.size + Measure(ps, files, rs)
    ensures (forall r <- rs :: r in ps ==> !Contains(ps[r], x.path)) ==>
      Measure(ps, [x] + files, rs) == Measure(ps, files, rs)
  {
    assert ([x] + files)[1..] == files;
  }

  /** Every item with a path was measured as the files at or under it. */
  ghost predicate Measured(fs: seq<Finding>, ps: PathMap, files: seq<File>) {
    forall r <- ps :: ValidRef(fs, r) && ItemAt(fs, r).bytes == Measure(ps, files, {r})
  }

  /** Items without a path, such as docker images, count what their tool says. */
  function PathlessBytes(fs: seq<Finding>, ps: PathMap, rs: seq<Ref>): int
    requires RefsValid(fs, rs)
  {
    if rs == [] then 0
    else (if rs[0] in ps then 0 else ItemAt(fs, rs[0]).bytes) + PathlessBytes(fs, ps, rs[1..])
  }

  function Bytes(fs: seq<Finding>, rs: seq<Ref>): int
    requires RefsValid(fs, rs)
  {
    if rs == [] then 0 else ItemAt(fs, rs[0]).bytes + Bytes(fs, rs[1..])
  }

  function TotalBytes(drafts: seq<Draft>): int {
    if drafts == [] then 0 else TotalBytes(drafts[..|drafts| - 1]) + drafts[|drafts| - 1].action.bytes
  }

  /** The targets no other target holds. */
  ghost function Uncovered(ps: PathMap, targets: set<Ref>, items: seq<Ref>): (rs: seq<Ref>)
    ensures forall r :: r in rs <==> r in items && !Covered(ps, targets, r)
  {
    if items == [] then [] else
      var last := items[|items| - 1];
      Uncovered(ps, targets, items[..|items| - 1]) + (if Covered(ps, targets, last) then [] else [last])
  }

  ghost function Roots(ps: PathMap, targets: set<Ref>, drafts: seq<Draft>): (rs: seq<Ref>)
    ensures forall r :: r in rs <==> r in PlannedBy(drafts) && !Covered(ps, targets, r)
  {
    if drafts == [] then [] else
      assert forall d <- drafts :: d in drafts[..|drafts| - 1] || d == drafts[|drafts| - 1];
      Roots(ps, targets, drafts[..|drafts| - 1]) + Uncovered(ps, targets, drafts[|drafts| - 1].items)
  }

  lemma {:induction false} BytesConcat(fs: seq<Finding>, a: seq<Ref>, b: seq<Ref>)
    requires RefsValid(fs, a) && RefsValid(fs, b)
    ensures RefsValid(fs, a + b) && Bytes(fs, a + b) == Bytes(fs, a) + Bytes(fs, b)
  {
    if a == [] {
      assert a + b == b;
    } else {
      BytesConcat(fs, a[1..], b);
      assert (a + b)[1..] == a[1..] + b;
    }
  }

  lemma {:induction false} UncoveredAreCounted(fs: seq<Finding>, ps: PathMap, targets: set<Ref>, items: seq<Ref>)
    requires RefsValid(fs, items)
    ensures Bytes(fs, Uncovered(ps, targets, items)) == UncoveredBytes(fs, ps, targets, items)
  {
    if items != [] {
      var rest, last := items[..|items| - 1], items[|items| - 1];
      UncoveredAreCounted(fs, ps, targets, rest);
      if !Covered(ps, targets, last) {
        BytesConcat(fs, Uncovered(ps, targets, rest), [last]);
      } else {
        assert Uncovered(ps, targets, items) == Uncovered(ps, targets, rest);
      }
    }
  }

  /** The plan's total is the bytes of the targets no other target holds. */
  lemma {:induction false} TotalIsRoots(fs: seq<Finding>, ps: PathMap, targets: set<Ref>, drafts: seq<Draft>)
    requires forall d <- drafts :: Counted(fs, ps, targets, d)
    ensures RefsValid(fs, Roots(ps, targets, drafts))
    ensures TotalBytes(drafts) == Bytes(fs, Roots(ps, targets, drafts))
  {
    if drafts != [] {
      var rest, last := drafts[..|drafts| - 1], drafts[|drafts| - 1];
      TotalIsRoots(fs, ps, targets, rest);
      assert Counted(fs, ps, targets, last);
      UncoveredAreCounted(fs, ps, targets, last.items);
      BytesConcat(fs, Roots(ps, targets, rest), Uncovered(ps, targets, last.items));
    }
  }

  // ---- sums of disjoint parts ----

  lemma {:induction false} MeasureOfDisjoint(ps: PathMap, files: seq<File>, rs: set<Ref>, r: Ref)
    requires forall x: File :: !(UnderSome(ps, rs, x) && UnderSome(ps, {r}, x))
    ensures Measure(ps, files, rs + {r}) == Measure(ps, files, rs) + Measure(ps, files, {r})
  {
    if files != [] {
      MeasureOfDisjoint(ps, files[1..], rs, r);
      var x := files[0];
      assert UnderSome(ps, rs + {r}, x) <==> UnderSome(ps, rs, x) || UnderSome(ps, {r}, x) by {
        if q :| q in rs + {r} && q in ps && Contains(ps[q], x.path) { assert q in rs || q in {r}; }
        if q :| q in rs && q in ps && Contains(ps[q], x.path) { assert q in rs + {r}; }
        if q :| q in {r} && q in ps && Contains(ps[q], x.path) { assert q in rs + {r}; }
      }
    }
  }

  lemma {:induction false} MeasureOfSameFiles(ps: PathMap, files: seq<File>, a: set<Ref>, b: set<Ref>)
    requires forall x: File :: UnderSome(ps, a, x) <==> UnderSome(ps, b, x)
    ensures Measure(ps, files, a) == Measure(ps, files, b)
  {
    if files != [] { MeasureOfSameFiles(ps, files[1..], a, b); }
  }

  lemma {:induction false} NothingMeasured(ps: PathMap, files: seq<File>, rs: set<Ref>)
    requires forall r <- rs :: r !in ps
    ensures Measure(ps, files, rs) == 0
  {
    if files != [] { NothingMeasured(ps, files[1..], rs); }
  }

  /** Of two items over one file, one holds the other. */
  lemma OverOneFile(ps: PathMap, a: Ref, b: Ref, x: File)
    requires a in ps && b in ps && a != b && Contains(ps[a], x.path) && Contains(ps[b], x.path)
    ensures !Apart(ps, a, b)
  {
    var pa, pb := ps[a], ps[b];
    if |pa.comps| <= |pb.comps| {
      assert pa.comps == x.path.comps[..|pa.comps|] == pb.comps[..|pa.comps|];
    } else {
      assert pb.comps == x.path.comps[..|pb.comps|] == pa.comps[..|pb.comps|];
    }
  }

  lemma {:induction false} RootsMeasure(fs: seq<Finding>, ps: PathMap, files: seq<File>, rs: seq<Ref>)
    requires RefsValid(fs, rs) && Measured(fs, ps, files)
    requires forall i, j | 0 <= i < j < |rs| :: Apart(ps, rs[i], rs[j])
    ensures Bytes(fs, rs) == Measure(ps, files, set r | r in rs) + PathlessBytes(fs, ps, rs)
  {
    if rs == [] {
      NothingMeasured(ps, files, set r | r in rs);
    } else {
      var rest := set r | r in rs[1..];
      RootsMeasure(fs, ps, files, rs[1..]);
      assert (set r | r in rs) == rest + {rs[0]};
      forall x: File ensures !(UnderSome(ps, rest, x) && UnderSome(ps, {rs[0]}, x)) { UnderOneOnly(ps, rs, x); }
      MeasureOfDisjoint(ps, files, rest, rs[0]);
      OneMeasured(fs, ps, files, rs[0]);
    }
  }

  lemma UnderOneOnly(ps: PathMap, rs: seq<Ref>, x: File)
    requires rs != [] && forall i, j | 0 <= i < j < |rs| :: Apart(ps, rs[i], rs[j])
    ensures !(UnderSome(ps, (set r | r in rs[1..]), x) && UnderSome(ps, {rs[0]}, x))
  {
    var rest := set r | r in rs[1..];
    if UnderSome(ps, rest, x) && UnderSome(ps, {rs[0]}, x) {
      var q :| q in rest && q in ps && Contains(ps[q], x.path);
      var j :| 0 <= j < |rs[1..]| && rs[1..][j] == q;
      assert Apart(ps, rs[0], rs[j + 1]);
      OverOneFile(ps, rs[0], q, x);
    }
  }

  lemma OneMeasured(fs: seq<Finding>, ps: PathMap, files: seq<File>, r: Ref)
    requires ValidRef(fs, r) && Measured(fs, ps, files)
    ensures ItemAt(fs, r).bytes == Measure(ps, files, {r}) + if r in ps then 0 else ItemAt(fs, r).bytes
  {
    if r !in ps { NothingMeasured(ps, files, {r}); }
  }

  // ---- the union ----

  lemma RootsHoldAll(ps: PathMap, targets: set<Ref>, roots: set<Ref>)
    requires forall r :: r in roots <==> r in targets && !Covered(ps, targets, r)
    ensures forall x: File :: UnderSome(ps, targets, x) <==> UnderSome(ps, roots, x)
  {
    forall x: File | UnderSome(ps, targets, x) ensures UnderSome(ps, roots, x) {
      var r :| r in targets && r in ps && Contains(ps[r], x.path);
      if Covered(ps, targets, r) {
        var top := TopmostPlanned(ps, targets, r);
        assert Contains(ps[top], x.path);
        assert top in roots;
      } else {
        assert r in roots;
      }
    }
  }

  lemma {:induction false} UncoveredDistinct(ps: PathMap, targets: set<Ref>, items: seq<Ref>)
    requires Distinct(items)
    ensures Distinct(Uncovered(ps, targets, items))
  {
    if items != [] {
      UncoveredDistinct(ps, targets, items[..|items| - 1]);
    }
  }

  lemma {:induction false} RootsDistinct(ps: PathMap, targets: set<Ref>, drafts: seq<Draft>)
    requires NoneShared(drafts) && forall d <- drafts :: Distinct(d.items)
    ensures Distinct(Roots(ps, targets, drafts))
  {
    if drafts != [] {
      var rest, last := drafts[..|drafts| - 1], drafts[|drafts| - 1];
      RootsDistinct(ps, targets, rest);
      UncoveredDistinct(ps, targets, last.items);
      forall r <- Roots(ps, targets, rest) ensures r !in last.items {
        var d :| d in rest && r in d.items;
        var i :| 0 <= i < |rest| && drafts[i] == d;
        assert r in drafts[i].items;
      }
      DistinctConcat(Roots(ps, targets, rest), Uncovered(ps, targets, last.items));
    }
  }

  /** TotalBytes is the measure of the union of all the action targets, plus what
      the targets without a path report: for any plan BuildPlan gives, and any
      files by which the items' bytes were measured. */
  lemma TotalIsTheUnion(fs: seq<Finding>, home: string, opts: Options, picked: set<Ref>, engaged: set<nat>, plan: Plan,
                        files: seq<File>)
    requires PlanOk(fs, PathsOf(fs), home, opts, picked, engaged, plan)
    requires Measured(fs, PathsOf(fs), files)
    ensures var roots := Roots(PathsOf(fs), Targets(plan), plan.drafts);
      RefsValid(fs, roots) &&
      TotalBytes(plan.drafts) ==
        Measure(PathsOf(fs), files, Targets(plan)) + PathlessBytes(fs, PathsOf(fs), roots)
  {
    var ps, targets := PathsOf(fs), Targets(plan);
    var roots := Roots(ps, targets, plan.drafts);
    TotalIsRoots(fs, ps, targets, plan.drafts);
    assert forall d <- plan.drafts :: Distinct(d.items) by {
      forall d <- plan.drafts ensures Distinct(d.items) {
        assert SafeDraft(fs, ps, home, opts, picked, d);
        AscendingDistinct(d.items);
      }
    }
    RootsDistinct(ps, targets, plan.drafts);
    RootsApart(ps, targets, roots);
    RootsMeasure(fs, ps, files, roots);
    var rootSet := set r | r in roots;
    RootsHoldAll(ps, targets, rootSet);
    MeasureOfSameFiles(ps, files, targets, rootSet);
  }

  lemma AscendingDistinct(items: seq<Ref>)
    requires Ascending(items)
    ensures Distinct(items)
  {
  }

  lemma RootsApart(ps: PathMap, targets: set<Ref>, roots: seq<Ref>)
    requires Distinct(roots) && forall r <- roots :: r in targets && !Covered(ps, targets, r)
    ensures forall i, j | 0 <= i < j < |roots| :: Apart(ps, roots[i], roots[j])
  {
    forall i, j | 0 <= i < j < |roots| ensures Apart(ps, roots[i], roots[j]) {
      assert roots[i] in roots && roots[j] in roots;
    }
  }
}
