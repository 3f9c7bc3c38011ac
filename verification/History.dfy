// Two counts of one run agree: the executor's result and the history's summary,
// read back from the journal. internal/executor/executor.go, internal/oplog/summary.go.
module History {
  import opened Catalog
  import opened Disk
  import opened Journal
  import opened Executor

  lemma {:induction false} PlannedLocal(es: seq<Entry>, more: seq<Entry>, n: nat, num: int)
    requires n <= |es|
    ensures PlannedAt(es + more, n, num) == PlannedAt(es, n, num)
  {
    if n > 0 { PlannedLocal(es, more, n - 1, num); }
  }

  lemma {:induction false} SumLocal(es: seq<Entry>, more: seq<Entry>, undone: set<int>, n: nat, w: Went)
    requires n <= |es|
    ensures Sum(es + more, undone, n, w) == Sum(es, undone, n, w)
  {
    if n > 0 {
      SumLocal(es, more, undone, n - 1, w);
      PlannedLocal(es, more, n - 1, es[n - 1].num);
    }
  }

  lemma {:induction false} RuleSumLocal(es: seq<Entry>, more: seq<Entry>, undone: set<int>, n: nat, id: string)
    requires n <= |es|
    ensures RuleSum(es + more, undone, n, id) == RuleSum(es, undone, n, id)
  {
    if n > 0 {
      RuleSumLocal(es, more, undone, n - 1, id);
      PlannedLocal(es, more, n - 1, es[n - 1].num);
    }
  }

  /** A start line with its end line adds the action's size to one bucket. */
  lemma SumPair(es: seq<Entry>, start: Entry, end: Entry, undone: set<int>, w: Went)
    requires start.event == Start && end.event != Start && end.num == start.num
    ensures Sum(es + [start, end], undone, |es| + 2, w) ==
      Sum(es, undone, |es|, w) + if Counts(end, undone) && WentTo(start, end) == w then Sized(start, end) else 0
  {
    var all := es + [start, end];
    SumLocal(es, [start, end], undone, |es|, w);
    assert all[|es|] == start && all[|es| + 1] == end;
    assert PlannedAt(all, |es| + 1, end.num) == start;
    assert Sum(all, undone, |es| + 1, w) == Sum(all, undone, |es|, w);
  }

  lemma RuleSumPair(es: seq<Entry>, start: Entry, end: Entry, undone: set<int>, id: string)
    requires start.event == Start && end.event != Start && end.num == start.num
    ensures RuleSum(es + [start, end], undone, |es| + 2, id) ==
      RuleSum(es, undone, |es|, id) +
      if Counts(end, undone) && start.ruleID == id && Sized(start, end) > 0 then Sized(start, end) else 0
  {
    var all := es + [start, end];
    RuleSumLocal(es, [start, end], undone, |es|, id);
    assert all[|es|] == start && all[|es| + 1] == end;
    assert PlannedAt(all, |es| + 1, end.num) == start;
    assert RuleSum(all, undone, |es| + 1, id) == RuleSum(all, undone, |es|, id);
  }

  // ---- one action in each count ----

  function Size(t: Try): int { Sized(StartLine("", t), EndLine("", t)) }

  function Bucket(t: Try): Went { WentTo(StartLine("", t), EndLine("", t)) }

  function InBucket(w: Went): Try -> int {
    (t: Try) => if t.acted.ok && Bucket(t) == w then Size(t) else 0
  }

  function ByRule(id: string): Try -> int {
    (t: Try) => if t.acted.ok && t.action.ruleID == id && Size(t) > 0 then Size(t) else 0
  }

  /** What the run's exported bytes count beyond the history's: an action both
      measured and exported is in the run at its planned size. */
  function Overstated(t: Try): int {
    if LandedBy(t, NativeKind, Export) && t.acted.pruned.Some? then t.action.bytes - t.acted.pruned.value.bytes else 0
  }

  /** f, but nothing for the actions that were put back. */
  function Standing(back: set<int>, f: Try -> int): Try -> int {
    (t: Try) => if t.num in back then 0 else f(t)
  }

  /** What one try's two lines add to a bucket. */
  lemma TrySum(run: string, t: Try, back: set<int>, w: Went)
    ensures var s, e := StartLine(run, t), EndLine(run, t);
      (if Counts(e, back) && WentTo(s, e) == w then Sized(s, e) else 0) == Standing(back, InBucket(w))(t)
  {
  }

  lemma LinesOf(run: string, tries: seq<Try>)
    requires tries != []
    ensures var n := |tries| - 1;
      Lines(run, tries) == Lines(run, tries[..n]) + [StartLine(run, tries[n]), EndLine(run, tries[n])]
  {
  }

  lemma {:induction false} LinesSum(run: string, tries: seq<Try>, back: set<int>, w: Went)
    ensures Sum(Lines(run, tries), back, |Lines(run, tries)|, w) == Total(tries, Standing(back, InBucket(w)))
  {
    if tries != [] {
      var n := |tries| - 1;
      LinesSum(run, tries[..n], back, w);
      LinesOf(run, tries);
      SumPair(Lines(run, tries[..n]), StartLine(run, tries[n]), EndLine(run, tries[n]), back, w);
      TrySum(run, tries[n], back, w);
    }
  }

  lemma {:induction false} LinesRuleSum(run: string, tries: seq<Try>, back: set<int>, id: string)
    ensures RuleSum(Lines(run, tries), back, |Lines(run, tries)|, id) == Total(tries, Standing(back, ByRule(id)))
  {
    if tries != [] {
      var n := |tries| - 1;
      LinesRuleSum(run, tries[..n], back, id);
      RuleSumPair(Lines(run, tries[..n]), StartLine(run, tries[n]), EndLine(run, tries[n]), back, id);
    }
  }

  lemma CountPair(es: seq<Entry>, s: Entry, e: Entry, ev: Event)
    ensures Journal.Count(es + [s, e], ev) ==
      Journal.Count(es, ev) + (if s.event == ev then 1 else 0) + if e.event == ev then 1 else 0
    ensures s.event != Undo && e.event != Undo ==> Restored(es + [s, e]) == Restored(es)
  {
    assert (es + [s, e])[..|es| + 1] == es + [s] && (es + [s])[..|es|] == es;
  }

  lemma UndonePair(es: seq<Entry>, s: Entry, e: Entry)
    requires s.event != Undo && e.event != Undo
    ensures Undone(es + [s, e]) == Undone(es)
  {
    assert forall x :: x in es + [s, e] <==> x in es || x == s || x == e;
  }

  lemma {:induction false} LinesCounted(run: string, tries: seq<Try>)
    ensures Journal.Count(Lines(run, tries), Done) == Total(tries, Succeeded)
    ensures Journal.Count(Lines(run, tries), Fail) == |tries| - Total(tries, Succeeded)
    ensures Restored(Lines(run, tries)) == 0 && Undone(Lines(run, tries)) == {}
  {
    if tries != [] {
      var n := |tries| - 1;
      LinesCounted(run, tries[..n]);
      LinesOf(run, tries);
      var es, s, e := Lines(run, tries[..n]), StartLine(run, tries[n]), EndLine(run, tries[n]);
      CountPair(es, s, e, Done);
      CountPair(es, s, e, Fail);
      UndonePair(es, s, e);
    }
  }

  lemma {:induction false} SameTotals(tries: seq<Try>, f: Try -> int, g: Try -> int)
    requires forall t <- tries :: f(t) == g(t)
    ensures Total(tries, f) == Total(tries, g)
  {
    if tries != [] { SameTotals(tries[..|tries| - 1], f, g); }
  }

  lemma {:induction false} AddedTotals(tries: seq<Try>, f: Try -> int, g: Try -> int, h: Try -> int)
    requires forall t <- tries :: h(t) == f(t) + g(t)
    ensures Total(tries, h) == Total(tries, f) + Total(tries, g)
  {
    if tries != [] { AddedTotals(tries[..|tries| - 1], f, g, h); }
  }

  /** What the executor promises of each action it attempted. */
  ghost predicate Sensible(tries: seq<Try>) {
    forall t <- tries :: OneSensible(t)
  }

  predicate OneSensible(t: Try) {
    && (t.acted.ok && t.action.kind == TrashKind ==> t.acted.receipt.Some? && t.acted.receipt.value.Restorable())
    && (t.action.kind == PruneKind ==> t.acted.receipt.None?)
    && (t.action.kind == TrashKind ==> t.acted.pruned.None?)
    && (t.action.kind == PruneKind && t.acted.ok ==> t.acted.pruned.Some?)
    && (t.action.kind == NativeKind && t.action.measure == "" ==> t.acted.pruned.None?)
    && (t.acted.pruned.Some? ==> t.acted.pruned.value.bytes >= 0)
  }

  lemma {:induction false} PossibleIsSensible(v: Volume, nodes: Nodes, tries: seq<Try>)
    requires AllPossible(v, nodes, tries)
    ensures Sensible(tries)
  {
    if tries != [] {
      var n := |tries| - 1;
      PossibleIsSensible(v, nodes, tries[..n]);
      assert tries == tries[..n] + [tries[n]];
    }
  }

  /** The tries' sums, as a summary holds them, less what was put back: of exported bytes,
      the measured ones. */
  ghost predicate Agrees(s: Summary, tries: seq<Try>, back: set<int>) {
    && s.done == Total(tries, Succeeded) && s.failed == |tries| - s.done
    && s.afterTrash == Total(tries, Standing(back, Trashed))
    && s.staged == Total(tries, Standing(back, Executor.Staged))
    && s.exported == Total(tries, Standing(back, Executor.Exported)) - Total(tries, Standing(back, Overstated))
    && s.Bytes() == Total(tries, Standing(back, Freed))
  }

  /** The summary of the journaled run counts what its result counted; only exported
      bytes may differ, by what measured exports were planned at beyond their measure. */
  lemma HistoryAgrees(run: string, tries: seq<Try>, res: Result, s: Summary)
    requires Sensible(tries) && Tallied(res, tries)
    requires var es := Lines(run, tries); CountedTo(es, s) && Summed(es, Undone(es), |es|, s)
    ensures s.done == res.done && s.failed == res.failed && s.undone == 0
    ensures s.afterTrash == res.trashBytes && s.staged == res.stagedBytes
    ensures s.Bytes() == res.bytes
    ensures res.exportedBytes - s.exported == Total(tries, Overstated)
  {
    LinesCounted(run, tries);
    SummedLines(run, tries, {}, s);
    LinesAgree(tries, {}, s);
    NoneBack(tries, s);
  }

  /** With nothing put back all stand. */
  lemma NoneBack(tries: seq<Try>, s: Summary)
    requires Agrees(s, tries, {})
    ensures s.afterTrash == Total(tries, Trashed) && s.staged == Total(tries, Executor.Staged)
    ensures s.exported == Total(tries, Executor.Exported) - Total(tries, Overstated) && s.Bytes() == Total(tries, Freed)
  {
    SameTotals(tries, Standing({}, Trashed), Trashed);
    SameTotals(tries, Standing({}, Executor.Staged), Executor.Staged);
    SameTotals(tries, Standing({}, Executor.Exported), Executor.Exported);
    SameTotals(tries, Standing({}, Overstated), Overstated);
    SameTotals(tries, Standing({}, Freed), Freed);
  }

  lemma LinesAgree(tries: seq<Try>, back: set<int>, s: Summary)
    requires Sensible(tries) && SummedTries(tries, back, s)
    requires s.done == Total(tries, Succeeded) && s.failed == |tries| - s.done
    ensures Agrees(s, tries, back)
  {
    BucketsAre(tries, back);
    BucketsAddUp(tries, back);
  }

  ghost predicate SummedTries(tries: seq<Try>, back: set<int>, s: Summary) {
    && s.freesNow == Total(tries, Standing(back, InBucket(FreesNow)))
    && s.afterTrash == Total(tries, Standing(back, InBucket(AfterTrash)))
    && s.staged == Total(tries, Standing(back, InBucket(ToStaging)))
    && s.exported == Total(tries, Standing(back, InBucket(ToExport)))
  }

  lemma SummedLines(run: string, tries: seq<Try>, back: set<int>, s: Summary)
    requires var es := Lines(run, tries); Summed(es, back, |es|, s)
    ensures SummedTries(tries, back, s)
  {
    LinesSum(run, tries, back, FreesNow);
    LinesSum(run, tries, back, AfterTrash);
    LinesSum(run, tries, back, ToStaging);
    LinesSum(run, tries, back, ToExport);
  }

  /** The run's own buckets are the history's, exports apart. */
  lemma BucketsAre(tries: seq<Try>, back: set<int>)
    requires Sensible(tries)
    ensures Total(tries, Standing(back, InBucket(AfterTrash))) == Total(tries, Standing(back, Trashed))
    ensures Total(tries, Standing(back, InBucket(ToStaging))) == Total(tries, Standing(back, Executor.Staged))
    ensures Total(tries, Standing(back, Executor.Exported)) ==
      Total(tries, Standing(back, InBucket(ToExport))) + Total(tries, Standing(back, Overstated))
  {
    forall t <- tries ensures OneSensible(t) && Exported(t) == InBucket(ToExport)(t) + Overstated(t) {
      assert OneSensible(t);
    }
    SameStanding(tries, back, InBucket(AfterTrash), Trashed);
    SameStanding(tries, back, InBucket(ToStaging), Executor.Staged);
    AddedTotals(tries, InBucket(ToExport), Overstated, Executor.Exported);
    AddedStanding(tries, back, InBucket(ToExport), Overstated, Executor.Exported);
  }

  lemma {:induction false} SameStanding(tries: seq<Try>, back: set<int>, f: Try -> int, g: Try -> int)
    requires forall t <- tries :: f(t) == g(t)
    ensures Total(tries, Standing(back, f)) == Total(tries, Standing(back, g))
  {
    if tries != [] { SameStanding(tries[..|tries| - 1], back, f, g); }
  }

  lemma {:induction false} AddedStanding(tries: seq<Try>, back: set<int>, f: Try -> int, g: Try -> int, h: Try -> int)
    requires forall t <- tries :: h(t) == f(t) + g(t)
    ensures Total(tries, Standing(back, h)) == Total(tries, Standing(back, f)) + Total(tries, Standing(back, g))
  {
    if tries != [] { AddedStanding(tries[..|tries| - 1], back, f, g, h); }
  }

  lemma {:induction false} BucketsAddUp(tries: seq<Try>, back: set<int>)
    requires Sensible(tries)
    ensures Total(tries, Standing(back, Freed)) ==
      Total(tries, Standing(back, InBucket(FreesNow))) + Total(tries, Standing(back, InBucket(AfterTrash)))
      + Total(tries, Standing(back, InBucket(ToStaging))) + Total(tries, Standing(back, InBucket(ToExport)))
  {
    if tries != [] {
      var t := tries[|tries| - 1];
      BucketsAddUp(tries[..|tries| - 1], back);
      assert OneSensible(t);
      assert Freed(t) ==
        InBucket(FreesNow)(t) + InBucket(AfterTrash)(t) + InBucket(ToStaging)(t) + InBucket(ToExport)(t);
      StandingAt(back, Freed, t);
    }
  }

  lemma StandingAt(back: set<int>, f: Try -> int, t: Try)
    ensures Standing(back, f)(t) == if t.num in back then 0 else f(t)
  {
  }

  /** So the exported bytes agree too when no action carries both a measure and an export. */
  lemma {:induction false} ExportedAgrees(tries: seq<Try>)
    requires Sensible(tries)
    requires forall t <- tries ::
      t.action.measure == "" || !(t.acted.receipt.Some? && t.acted.receipt.value.how == Export)
    ensures Total(tries, Overstated) == 0
  {
    if tries != [] {
      ExportedAgrees(tries[..|tries| - 1]);
      assert OneSensible(tries[|tries| - 1]);
    }
  }

  function MeasuredExport(): Try {
    Try(1, Action("docker", "", NativeKind, VOLUME_EXPORT, "volume", "", 5, false, false, []), 0, 0,
        Acted(Some(Receipt("v", "/s/v.tar", Export, 0)), Some(Pruned(1, 3)), true, map[]))
  }

  /** A run of one measured export whose measure is below its planned size: its result
      counts five bytes exported, its summary three. */
  lemma MeasuredExportDiffers(v: Volume, nodes: Nodes, run: string) returns (tries: seq<Try>, res: Result, s: Summary)
    ensures AllPossible(v, nodes, tries) && Tallied(res, tries)
    ensures var es := Lines(run, tries); CountedTo(es, s) && Summed(es, Undone(es), |es|, s)
    ensures res.exportedBytes == 5 && s.exported == 3 && s.Bytes() == res.bytes
  {
    var t := MeasuredExport();
    tries := [t];
    OnePossible(v, nodes, t);
    res := Result(1, 0, 3, 0, 0, 5, [], [], Pruned(1, 3), Pruned(0, 0), false);
    s := Summary(run, 0, 1, 0, 0, 0, false, 0, 0, 0, 3, map["docker" := 3]);
    LinesCounted(run, tries);
    TalliedOne(t, res);
    SummedOne(run, t, s);
  }

  lemma OnePossible(v: Volume, nodes: Nodes, t: Try)
    requires t == MeasuredExport()
    ensures AllPossible(v, nodes, [t])
  {
    assert [t][..0] == [];
  }

  lemma OneTotal(t: Try, f: Try -> int)
    ensures Total([t], f) == f(t)
  {
    assert [t][..0] == [] && Total([], f) == 0;
  }

  lemma SummedOne(run: string, t: Try, s: Summary)
    requires t == MeasuredExport()
    requires s.freesNow == s.afterTrash == s.staged == 0 && s.exported == 3 && s.rules == map["docker" := 3]
    ensures var es := Lines(run, [t]); Summed(es, {}, |es|, s)
  {
    forall w: Went ensures Sum(Lines(run, [t]), {}, |Lines(run, [t])|, w) == InBucket(w)(t) {
      LinesSum(run, [t], {}, w);
      OneTotal(t, Standing({}, InBucket(w)));
    }
    forall id ensures RuleSum(Lines(run, [t]), {}, |Lines(run, [t])|, id) == ByRule(id)(t) {
      LinesRuleSum(run, [t], {}, id);
      OneTotal(t, Standing({}, ByRule(id)));
    }
  }

  lemma TalliedOne(t: Try, res: Result)
    requires t == MeasuredExport() && res == Result(1, 0, 3, 0, 0, 5, [], [], Pruned(1, 3), Pruned(0, 0), false)
    ensures Tallied(res, [t])
  {
    OneTotal(t, Succeeded);
    OneTotal(t, Freed);
    OneTotal(t, Trashed);
    OneTotal(t, Executor.Staged);
    OneTotal(t, Executor.Exported);
    OneTotal(t, PrunedFiles);
    OneTotal(t, PrunedBytes);
    OneTotal(t, FailedFiles);
    OneTotal(t, FailedBytes);
  }

  // ---- from the whole journal ----

  /** The attempts whose end line is in the journal. */
  function Ended(tries: seq<Try>, err: Err): seq<Try> {
    if err == EndNotLogged && tries != [] then tries[..|tries| - 1] else tries
  }

  /** The summary has the result's own totals, measured exports apart. */
  ghost predicate AgreesWith(s: Summary, res: Result, tries: seq<Try>) {
    && s.done == res.done && s.failed == res.failed && s.Bytes() == res.bytes
    && s.afterTrash == res.trashBytes && s.staged == res.stagedBytes
    && s.exported == res.exportedBytes - Total(tries, Overstated)
  }

  /** A run executed onto any journal, under an id of its own, read back from all of it
      and summarized: the summary holds the sums of the attempts whose end line is there,
      and so agrees with the result unless journaling one failed. */
  lemma HistoryOfRun(v: Volume, nodes0: Nodes, nodes: Nodes, actions: seq<Action>, reached: nat, tries: seq<Try>,
                     res: Result, err: Err, prior: seq<Entry>, es: seq<Entry>, run: string,
                     fold: string -> string, r: Run, s: Summary)
    requires Ran(v, nodes0, nodes, actions, reached, tries, res) && Journaled(run, tries, err, es)
    requires forall i | 0 <= i < |prior| :: prior[i].run != run
    requires r.id == run && IsRunOf(prior + es, |prior + es|, fold, r)
    requires CountedTo(r.entries, s) && Summed(r.entries, Undone(r.entries), |r.entries|, s)
    ensures Agrees(s, Ended(tries, err), {}) && s.undone == 0
    ensures err != EndNotLogged ==> AgreesWith(s, res, tries)
  {
    PossibleIsSensible(v, nodes0, tries);
    HistoryOfTries(tries, res, err, prior, es, run, fold, r, s);
  }

  lemma HistoryOfTries(tries: seq<Try>, res: Result, err: Err, prior: seq<Entry>, es: seq<Entry>, run: string,
                       fold: string -> string, r: Run, s: Summary)
    requires Tallied(res, tries) && Sensible(tries) && Journaled(run, tries, err, es)
    requires forall i | 0 <= i < |prior| :: prior[i].run != run
    requires r.id == run && IsRunOf(prior + es, |prior + es|, fold, r)
    requires CountedTo(r.entries, s) && Summed(r.entries, Undone(r.entries), |r.entries|, s)
    ensures Agrees(s, Ended(tries, err), {}) && s.undone == 0
    ensures err != EndNotLogged ==> AgreesWith(s, res, tries)
  {
    JournaledOfRun(run, tries, err, es);
    OfRunAppended(prior, es, run);
    assert (prior + es)[..|prior + es|] == prior + es;
    EndedAgrees(run, tries, err, es, s);
    NoneBack(Ended(tries, err), s);
  }

  lemma JournaledOfRun(run: string, tries: seq<Try>, err: Err, es: seq<Entry>)
    requires Journaled(run, tries, err, es)
    ensures forall i | 0 <= i < |es| :: es[i].run == run
  {
    LinesOfRun(run, tries);
    assert err == EndNotLogged ==> es == Lines(run, tries)[..|es|];
  }

  lemma EndedAgrees(run: string, tries: seq<Try>, err: Err, es: seq<Entry>, s: Summary)
    requires Sensible(tries) && Journaled(run, tries, err, es)
    requires CountedTo(es, s) && Summed(es, Undone(es), |es|, s)
    ensures Agrees(s, Ended(tries, err), {}) && s.undone == 0
  {
    var ended := Ended(tries, err);
    assert Sensible(ended) by { assert forall t <- ended :: t in tries; }
    if err == EndNotLogged {
      var start := StartLine(run, tries[|tries| - 1]);
      LinesOf(run, tries);
      assert es == (es + [EndLine(run, tries[|tries| - 1])])[..|es|];
      assert es == Lines(run, ended) + [start];
      StartAddsNothing(Lines(run, ended), start, s);
    }
    LinesCounted(run, ended);
    SummedLines(run, ended, {}, s);
    LinesAgree(ended, {}, s);
  }

  /** A start line without its end line changes no sum. */
  lemma StartAddsNothing(es: seq<Entry>, start: Entry, s: Summary)
    requires start.event == Start && CountedTo(es + [start], s)
    requires Summed(es + [start], Undone(es + [start]), |es + [start]|, s)
    ensures CountedTo(es, s) && Summed(es, Undone(es), |es|, s)
  {
    var all := es + [start];
    assert all[..|es|] == es && forall x :: x in all <==> x in es || x == start;
    assert Undone(all) == Undone(es);
    forall w: Went ensures Sum(all, Undone(es), |all|, w) == Sum(es, Undone(es), |es|, w) {
      SumLocal(es, [start], Undone(es), |es|, w);
    }
    forall id ensures RuleSum(all, Undone(es), |all|, id) == RuleSum(es, Undone(es), |es|, id) {
      RuleSumLocal(es, [start], Undone(es), |es|, id);
    }
  }

  // ---- after an undo ----

  /** How many of these lines say, without an error, that something was put back. */
  function Worked(lines: seq<Entry>): nat {
    if lines == [] then 0 else Worked(lines[..|lines| - 1]) + if lines[|lines| - 1].error == "" then 1 else 0
  }

  /** A run's lines and an undo's after them, summarized: what an undo line without an error
      names counts no more, all else counts as before; a restore that failed changes nothing. */
  lemma HistoryAfterUndo(run: string, tries: seq<Try>, lines: seq<Entry>, back: set<int>, s: Summary)
    requires Sensible(tries) && forall x <- lines :: x.event == Undo
    requires forall num :: num in back <==> exists x <- lines :: x.num == num && x.error == ""
    requires var es := Lines(run, tries) + lines; CountedTo(es, s) && Summed(es, Undone(es), |es|, s)
    ensures Agrees(s, tries, back) && s.undone == Worked(lines)
    ensures forall id :: Value(s.rules, id) == Total(tries, Standing(back, ByRule(id)))
  {
    var es := Lines(run, tries);
    LinesCounted(run, tries);
    UndoneAfter(es, lines, back);
    UndoCounts(es, lines);
    assert Undone(es + lines) == back;
    SumsStay(es, lines, back, s);
    StandingSums(run, tries, back, s);
  }

  lemma StandingSums(run: string, tries: seq<Try>, back: set<int>, s: Summary)
    requires Sensible(tries) && s.done == Total(tries, Succeeded) && s.failed == |tries| - s.done
    requires var es := Lines(run, tries); Summed(es, back, |es|, s)
    ensures Agrees(s, tries, back)
    ensures forall id :: Value(s.rules, id) == Total(tries, Standing(back, ByRule(id)))
  {
    SummedLines(run, tries, back, s);
    LinesAgree(tries, back, s);
    forall id ensures Value(s.rules, id) == Total(tries, Standing(back, ByRule(id))) {
      LinesRuleSum(run, tries, back, id);
    }
  }

  lemma UndoneAfter(es: seq<Entry>, lines: seq<Entry>, back: set<int>)
    requires forall x <- lines :: x.event == Undo
    requires forall num :: num in back <==> exists x <- lines :: x.num == num && x.error == ""
    ensures Undone(es + lines) == Undone(es) + back
  {
    assert forall x :: x in es + lines <==> x in es || x in lines;
    forall num | num in back ensures num in Undone(es + lines) {
      var x :| x in lines && x.num == num && x.error == "";
      assert x in es + lines;
    }
  }

  lemma {:induction false} UndoCounts(es: seq<Entry>, lines: seq<Entry>)
    requires forall x <- lines :: x.event == Undo
    ensures Journal.Count(es + lines, Done) == Journal.Count(es, Done)
    ensures Journal.Count(es + lines, Fail) == Journal.Count(es, Fail)
    ensures Restored(es + lines) == Restored(es) + Worked(lines)
  {
    if lines == [] {
      assert es + [] == es;
    } else {
      var n := |lines| - 1;
      UndoCounts(es, lines[..n]);
      assert lines[n] in lines && (es + lines)[..|es| + n] == es + lines[..n];
    }
  }

  lemma SumsStay(es: seq<Entry>, lines: seq<Entry>, back: set<int>, s: Summary)
    requires (forall x <- lines :: x.event == Undo) && Summed(es + lines, back, |es + lines|, s)
    ensures Summed(es, back, |es|, s)
  {
    forall w: Went ensures Sum(es + lines, back, |es + lines|, w) == Sum(es, back, |es|, w) {
      SumLocal(es, lines, back, |es|, w);
      SumSame(es + lines, back, |es|, |es + lines|, w);
    }
    forall id ensures RuleSum(es + lines, back, |es + lines|, id) == RuleSum(es, back, |es|, id) {
      RuleSumLocal(es, lines, back, |es|, id);
      RuleSumSame(es + lines, back, |es|, |es + lines|, id);
    }
  }

  lemma {:induction false} SumSame(es: seq<Entry>, back: set<int>, m: nat, n: nat, w: Went)
    requires m <= n <= |es| && forall i | m <= i < n :: es[i].event == Undo
    ensures Sum(es, back, n, w) == Sum(es, back, m, w)
  {
    if m < n { SumSame(es, back, m, n - 1, w); }
  }

  lemma {:induction false} RuleSumSame(es: seq<Entry>, back: set<int>, m: nat, n: nat, id: string)
    requires m <= n <= |es| && forall i | m <= i < n :: es[i].event == Undo
    ensures RuleSum(es, back, n, id) == RuleSum(es, back, m, id)
  {
    if m < n { RuleSumSame(es, back, m, n - 1, id); }
  }

  // ---- bytes by rule ----

  function RuleTotal(rules: map<string, int>, ids: seq<string>): int {
    if ids == [] then 0 else RuleTotal(rules, ids[..|ids| - 1]) + Value(rules, ids[|ids| - 1])
  }

  function Below(t: Try): int {
    if t.acted.ok && Size(t) < 0 then Size(t) else 0
  }

  function OfRules(ids: seq<string>): Try -> int {
    (t: Try) => if t.acted.ok && t.action.ruleID in ids && Size(t) > 0 then Size(t) else 0
  }

  /** The bytes by rule hold all of the run's bytes but negative sizes, which no
      rule is charged: with none, they sum to the total. */
  lemma RulesHoldAll(run: string, tries: seq<Try>, res: Result, s: Summary, ids: seq<string>)
    requires Sensible(tries) && Tallied(res, tries)
    requires var es := Lines(run, tries); Summed(es, Undone(es), |es|, s)
    requires (forall t <- tries :: t.action.ruleID in ids) && forall i, j | 0 <= i < j < |ids| :: ids[i] != ids[j]
    ensures RuleTotal(s.rules, ids) == res.bytes - Total(tries, Below)
  {
    LinesCounted(run, tries);
    RuleTotals(run, tries, s, ids);
    AddedTotals(tries, OfRules(ids), Below, Freed);
  }

  lemma {:induction false} RuleTotals(run: string, tries: seq<Try>, s: Summary, ids: seq<string>)
    requires Summed(Lines(run, tries), {}, |Lines(run, tries)|, s)
    requires forall i, j | 0 <= i < j < |ids| :: ids[i] != ids[j]
    ensures RuleTotal(s.rules, ids) == Total(tries, OfRules(ids))
  {
    if ids == [] {
      SameTotals(tries, OfRules(ids), t => 0);
      NoTotal(tries);
    } else {
      var n := |ids| - 1;
      RuleTotals(run, tries, s, ids[..n]);
      LinesRuleSum(run, tries, {}, ids[n]);
      SameTotals(tries, Standing({}, ByRule(ids[n])), ByRule(ids[n]));
      AddedTotals(tries, OfRules(ids[..n]), ByRule(ids[n]), OfRules(ids));
    }
  }

  lemma {:induction false} NoTotal(tries: seq<Try>)
    ensures Total(tries, t => 0) == 0
  {
    if tries != [] { NoTotal(tries[..|tries| - 1]); }
  }
}
