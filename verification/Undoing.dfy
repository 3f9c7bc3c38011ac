// Undo, and what it gives back: internal/executor/executor.go.
module Undoing {
  import opened Catalog
  import opened Disk
  import opened Journal
  import opened Executor
  import History

  datatype UndoResult = UndoResult(restored: nat, failed: nat, nativeSkipped: nat, exportSkipped: nat, gone: seq<Entry>)

  function UndoLine(run: string, now: int, e: Entry, ok: bool): Entry
    requires e.receipt.Some?
  {
    Entry(now, run, e.num, Event.Undo, e.ruleID, "", None, e.receipt.value.original, 0, None, None,
      if ok then "" else "failed")
  }

  predicate Receipts(es: seq<Entry>) { forall i | 0 <= i < |es| :: es[i].receipt.Some? }

  type Step = (Nodes, Receipt) -> Nodes

  function Restoring(v: Volume): Step { (nodes, r) => AfterRestore(v, nodes, r) }

  function Works(v: Volume): (Nodes, Receipt) -> bool { (nodes, r) => Restores(v, nodes, r) }

  function Fold(step: Step, nodes: Nodes, es: seq<Entry>): Nodes
    requires Receipts(es)
  {
    if es == [] then nodes else step(Fold(step, nodes, es[..|es| - 1]), es[|es| - 1].receipt.value)
  }

  /** How many of the steps work, each on what the ones before it left. */
  function Worked(works: (Nodes, Receipt) -> bool, step: Step, nodes: Nodes, es: seq<Entry>): nat
    requires Receipts(es)
  {
    if es == [] then 0
    else
      var before := es[..|es| - 1];
      Worked(works, step, nodes, before) + if works(Fold(step, nodes, before), es[|es| - 1].receipt.value) then 1 else 0
  }

  /** The disk after these moves are restored, first one first. */
  function UndoAll(v: Volume, nodes: Nodes, es: seq<Entry>): Nodes
    requires Receipts(es)
  {
    Fold(Restoring(v), nodes, es)
  }

  function Put(v: Volume, nodes: Nodes, es: seq<Entry>): nat
    requires Receipts(es)
  {
    Worked(Works(v), Restoring(v), nodes, es)
  }

  function LinesFrom(works: (Nodes, Receipt) -> bool, step: Step, nodes: Nodes, run: string, now: int,
                     es: seq<Entry>): seq<Entry>
    requires Receipts(es)
  {
    if es == [] then []
    else
      var before, e := es[..|es| - 1], es[|es| - 1];
      LinesFrom(works, step, nodes, run, now, before) +
      [UndoLine(run, now, e, works(Fold(step, nodes, before), e.receipt.value))]
  }

  function UndoLines(v: Volume, nodes: Nodes, run: string, now: int, es: seq<Entry>): seq<Entry>
    requires Receipts(es)
  {
    LinesFrom(Works(v), Restoring(v), nodes, run, now, es)
  }

  /** The run's done lines without a receipt, and those with one that is no move. */
  function Unmoved(es: seq<Entry>): nat {
    if es == [] then 0
    else Unmoved(es[..|es| - 1]) + if es[|es| - 1].event == Done && es[|es| - 1].receipt.None? then 1 else 0
  }

  function Exports(es: seq<Entry>): nat {
    if es == [] then 0
    else Exports(es[..|es| - 1]) + if Moved(es[|es| - 1]) && !es[|es| - 1].receipt.value.Restorable() then 1 else 0
  }

  function GoneNow(v: Volume, nodes: Nodes): Receipt -> bool {
    r => Gone(v, nodes, r)
  }

  function Present(r: Run, v: Volume, nodes: Nodes): seq<Entry> {
    Those(r, GoneNow(v, nodes), PendingOf(r.entries, Undone(r.entries)), true)
  }

  function Missing(r: Run, v: Volume, nodes: Nodes): seq<Entry> {
    Those(r, GoneNow(v, nodes), PendingOf(r.entries, Undone(r.entries)), false)
  }

  lemma {:induction false} ThoseThere(r: Run, gone: Receipt -> bool, es: seq<Entry>)
    ensures Receipts(Those(r, gone, es, true))
  {
    if es != [] { ThoseThere(r, gone, es[..|es| - 1]); }
  }

  method CountKept(r: Run) returns (native: nat, exports: nat)
    ensures native == Unmoved(r.entries) && exports == Exports(r.entries)
  {
    native, exports := 0, 0;
    for i := 0 to |r.entries|
      invariant native == Unmoved(r.entries[..i]) && exports == Exports(r.entries[..i])
    {
      var e := r.entries[i];
      assert r.entries[..i + 1][..i] == r.entries[..i];
      if e.event == Done {
        if e.receipt.None? {
          native := native + 1;
        } else if !e.receipt.value.Restorable() {
          exports := exports + 1;
        }
      }
    }
    assert r.entries[..|r.entries|] == r.entries;
  }

  /** What undo has done after the first n present moves, journaled to the last of
      them when logged. */
  ghost predicate Undid(v: Volume, nodes0: Nodes, nodes: Nodes, r: Run, now: int, present: seq<Entry>, n: nat,
                        res: UndoResult, lines: seq<Entry>, logged: bool)
  {
    && n <= |present| && Receipts(present[..n])
    && nodes == UndoAll(v, nodes0, present[..n])
    && res.restored == Put(v, nodes0, present[..n]) && res.restored + res.failed == n
    && (if logged then lines == UndoLines(v, nodes0, r.id, now, present[..n])
        else n > 0 && lines == UndoLines(v, nodes0, r.id, now, present[..n - 1]))
  }

  /** One restore and its journal line; logs says whether the line goes through. */
  method RestoreOne(log: Log, drive: Drive, r: Run, now: int, ghost nodes0: Nodes, present: seq<Entry>, n: nat,
                    res: UndoResult, ghost lines: seq<Entry>, logs: bool)
    returns (next: UndoResult, ghost line: seq<Entry>)
    requires n < |present| && Receipts(present)
      && Undid(drive.v, nodes0, drive.nodes, r, now, present, n, res, lines, true)
    modifies log, drive
    ensures next.nativeSkipped == res.nativeSkipped && next.exportSkipped == res.exportSkipped && next.gone == res.gone
    ensures log.entries == old(log.entries) + line
    ensures Undid(drive.v, nodes0, drive.nodes, r, now, present, n + 1, next, lines + line, logs)
  {
    var e := present[n];
    assert present[..n + 1][..n] == present[..n];
    var ok := drive.Restore(e.receipt.value);
    next := if ok then res.(restored := res.restored + 1) else res.(failed := res.failed + 1);
    var _ := log.Append(UndoLine(r.id, now, e, ok), logs);
    line := if logs then [UndoLine(r.id, now, e, ok)] else [];
  }

  method RestoreAll(log: Log, drive: Drive, r: Run, now: int, present: seq<Entry>, res0: UndoResult, logs: seq<bool>)
    returns (res: UndoResult, ok: bool, ghost n: nat, ghost lines: seq<Entry>)
    requires |logs| >= |present| && Receipts(present) && res0.restored == 0 && res0.failed == 0
    modifies log, drive
    ensures Undid(drive.v, old(drive.nodes), drive.nodes, r, now, present, n, res, lines, ok)
    ensures log.entries == old(log.entries) + lines && (ok ==> n == |present|)
    ensures res.gone == res0.gone && res.nativeSkipped == res0.nativeSkipped && res.exportSkipped == res0.exportSkipped
  {
    res, n, lines := res0, 0, [];
    for i := 0 to |present|
      invariant n == i && Undid(drive.v, old(drive.nodes), drive.nodes, r, now, present, i, res, lines, true)
      invariant log.entries == old(log.entries) + lines
      invariant res.gone == res0.gone && res.nativeSkipped == res0.nativeSkipped
        && res.exportSkipped == res0.exportSkipped
    {
      ghost var line;
      res, line := RestoreOne(log, drive, r, now, old(drive.nodes), present, i, res, lines, logs[i]);
      n, lines := i + 1, lines + line;
      if !logs[i] {
        return res, false, n, lines;
      }
    }
    ok := true;
  }

  /** logs: whether each undo's line goes through; undo stops at one that does not. */
  method Undo(log: Log, drive: Drive, r: Run, now: int, logs: seq<bool>)
    returns (res: UndoResult, ok: bool, ghost n: nat, ghost lines: seq<Entry>)
    requires |logs| >= |PendingOf(r.entries, Undone(r.entries))|
    modifies log, drive
    ensures Undid(drive.v, old(drive.nodes), drive.nodes, r, now, Present(r, drive.v, old(drive.nodes)), n, res, lines,
      ok)
    ensures log.entries == old(log.entries) + lines
    ensures ok ==> n == |Present(r, drive.v, old(drive.nodes))|
    ensures res.gone == Missing(r, drive.v, old(drive.nodes))
    ensures res.nativeSkipped == Unmoved(r.entries) && res.exportSkipped == Exports(r.entries)
  {
    var native, exports := CountKept(r);
    var present, missing := OnDisk(r, GoneNow(drive.v, drive.nodes));
    ThoseThere(r, GoneNow(drive.v, drive.nodes), PendingOf(r.entries, Undone(r.entries)));
    ThoseFew(r, GoneNow(drive.v, drive.nodes), PendingOf(r.entries, Undone(r.entries)));
    res, ok, n, lines := RestoreAll(log, drive, r, now, present, UndoResult(0, 0, native, exports, missing), logs);
  }

  lemma {:induction false} ThoseFew(r: Run, gone: Receipt -> bool, es: seq<Entry>)
    ensures |Those(r, gone, es, true)| + |Those(r, gone, es, false)| == |es|
  {
    if es != [] { ThoseFew(r, gone, es[..|es| - 1]); }
  }

  lemma {:induction false} ThoseAll(r: Run, gone: Receipt -> bool, es: seq<Entry>)
    requires Those(r, gone, es, false) == []
    ensures Those(r, gone, es, true) == es
  {
    if es != [] {
      var n := |es| - 1;
      ThoseAll(r, gone, es[..n]);
      assert es == es[..n] + [es[n]];
    }
  }

  // ---- undo right after the run ----

  /** A try's move, if it is one, and the rest. */
  function Prepended(run: string, t: Try, rest: seq<Entry>): (es: seq<Entry>)
    requires Receipts(rest)
    ensures Receipts(es)
  {
    if MovedBy(t) then [EndLine(run, t)] + rest else rest
  }

  /** The run's moves, last moved first. */
  function MovesOf(run: string, tries: seq<Try>): (es: seq<Entry>)
    ensures Receipts(es)
  {
    if tries == [] then []
    else
      var n := |tries| - 1;
      Prepended(run, tries[n], MovesOf(run, tries[..n]))
  }

  lemma {:induction false} PendingBelow(es: seq<Entry>, undone: set<int>, num: int)
    requires forall i | 0 <= i < |es| :: es[i].num < num
    ensures forall i | 0 <= i < |PendingOf(es, undone)| :: PendingOf(es, undone)[i].num < num
  {
    forall i | 0 <= i < |PendingOf(es, undone)| ensures PendingOf(es, undone)[i].num < num {
      PendingMoved(es, undone, PendingOf(es, undone)[i]);
    }
  }

  lemma {:induction false} LinesBelow(run: string, tries: seq<Try>, num: int)
    requires forall i | 0 <= i < |tries| :: tries[i].num < num
    ensures forall i | 0 <= i < |Lines(run, tries)| :: Lines(run, tries)[i].num < num
  {
    if tries != [] { LinesBelow(run, tries[..|tries| - 1], num); }
  }

  /** What is pending right after the run are its moves, last moved first. */
  lemma {:induction false} PendingIsMoves(v: Volume, nodes: Nodes, run: string, tries: seq<Try>)
    requires AllPossible(v, nodes, tries) && Ordered(tries)
    ensures PendingOf(Lines(run, tries), {}) == MovesOf(run, tries)
  {
    if tries != [] {
      var n := |tries| - 1;
      FewerPossible(v, nodes, tries, n);
      PendingIsMoves(v, nodes, run, tries[..n]);
      LinesBelow(run, tries[..n], tries[n].num);
      PendingBelow(Lines(run, tries[..n]), {}, tries[n].num);
      PendingPair(Lines(run, tries[..n]), StartLine(run, tries[n]), EndLine(run, tries[n]));
      MovedIsPending(v, AfterTries(v, nodes, tries[..n]), run, tries[n]);
    }
  }

  lemma MovedIsPending(v: Volume, nodes: Nodes, run: string, t: Try)
    requires Possible(v, nodes, t)
    ensures CanUndo(EndLine(run, t), {}) <==> MovedBy(t)
  {
  }

  lemma PendingPair(es: seq<Entry>, start: Entry, end: Entry)
    requires start.event == Start && forall i | 0 <= i < |PendingOf(es, {})| :: PendingOf(es, {})[i].num < end.num
    ensures PendingOf(es + [start, end], {}) == (if CanUndo(end, {}) then [end] else []) + PendingOf(es, {})
  {
    var all := es + [start, end];
    assert all[..|all| - 1] == es + [start] && (es + [start])[..|es|] == es;
    assert PendingOf(es + [start], {}) == PendingOf(es, {});
    assert [] + PendingOf(es, {}) == PendingOf(es, {});
  }

  lemma {:induction false} FewerPossible(v: Volume, nodes: Nodes, tries: seq<Try>, n: nat)
    requires AllPossible(v, nodes, tries) && n <= |tries|
    ensures AllPossible(v, nodes, tries[..n])
  {
    if n < |tries| {
      var before := tries[..|tries| - 1];
      assert AllPossible(v, nodes, before);
      FewerPossible(v, nodes, before, n);
      assert before[..n] == tries[..n];
    } else {
      assert tries[..n] == tries;
    }
  }

  lemma {:induction false} StaysClosed(v: Volume, nodes: Nodes, tries: seq<Try>)
    requires Closed(nodes) && AllPossible(v, nodes, tries)
    ensures Closed(AfterTries(v, nodes, tries))
  {
    if tries != [] {
      var n := |tries| - 1;
      FewerPossible(v, nodes, tries, n);
      StaysClosed(v, nodes, tries[..n]);
      TryCloses(v, AfterTries(v, nodes, tries[..n]), tries[n]);
    }
  }

  lemma TryCloses(v: Volume, nodes: Nodes, t: Try)
    requires Closed(nodes) && Possible(v, nodes, t)
    ensures Closed(AfterTry(v, nodes, t))
  {
    MakesCloses(nodes, t.acted.made);
    if MovedBy(t) {
      TryRenames(v, nodes, t);
      RenamedCloses(nodes + t.acted.made, v.at(t.action.path), v.at(t.acted.receipt.value.to), AfterTry(v, nodes, t));
    }
  }

  lemma TryRenames(v: Volume, nodes: Nodes, t: Try)
    requires Possible(v, nodes, t) && MovedBy(t)
    ensures var src, dst, with := v.at(t.action.path), v.at(t.acted.receipt.value.to), nodes + t.acted.made;
      CanRename(with, src, dst) && IsRenamed(with, src, dst, AfterTry(v, nodes, t)) && src in nodes
  {
    var l: Landing :| MoveWent(v, nodes, t, l);
    RenamedIs(nodes + t.acted.made, v.at(t.action.path), v.at(l.to));
  }

  lemma {:induction false} FoldFirst(works: (Nodes, Receipt) -> bool, step: Step, nodes: Nodes, e: Entry,
                                     es: seq<Entry>)
    requires Receipts(es) && e.receipt.Some?
    ensures Fold(step, nodes, [e] + es) == Fold(step, step(nodes, e.receipt.value), es)
    ensures Worked(works, step, nodes, [e] + es) ==
      (if works(nodes, e.receipt.value) then 1 else 0) + Worked(works, step, step(nodes, e.receipt.value), es)
  {
    if es == [] {
      assert [e] + es == [e] && [e][..0] == [];
    } else {
      var n := |es| - 1;
      FoldFirst(works, step, nodes, e, es[..n]);
      assert ([e] + es)[..n + 1] == [e] + es[..n];
    }
  }

  // What actions made stays behind, and goes along when the folder it is in is put back.

  /** What is left of more and of what the try made, once its move is undone. */
  function Back(v: Volume, t: Try, more: Nodes): Nodes {
    t.acted.made + if MovedBy(t) then Renamed(more, v.at(t.acted.receipt.value.to), v.at(t.action.path)) else more
  }

  /** All that the tries made, where it is once they are undone, last first. */
  function Left(v: Volume, tries: seq<Try>, more: Nodes): Nodes {
    if tries == [] then more
    else
      var n := |tries| - 1;
      Left(v, tries[..n], Back(v, tries[n], more))
  }

  /** Nothing a later action made lies where a move's item was, when that is undone. */
  predicate Clear(v: Volume, tries: seq<Try>, more: Nodes) {
    tries != [] ==>
      var n := |tries| - 1;
      (MovedBy(tries[n]) ==> v.at(tries[n].action.path) !in more) && Clear(v, tries[..n], Back(v, tries[n], more))
  }

  /** A try that moved something is undone by restoring its receipt, exactly when
      nothing lies where the item was. */
  lemma UndoOne(v: Volume, nodes: Nodes, t: Try, more: Nodes)
    requires Closed(nodes) && Possible(v, nodes, t) && MovedBy(t) && Beside(AfterTry(v, nodes, t), more)
    ensures var src, r, all := v.at(t.action.path), t.acted.receipt.value, AfterTry(v, nodes, t) + more;
      && (Restores(v, all, r) <==> src !in more)
      && (src !in more ==> AfterRestore(v, all, r) == nodes + Back(v, t, more) && Beside(nodes, Back(v, t, more)))
  {
    var l: Landing :| MoveWent(v, nodes, t, l);
    var src, dst := v.at(t.action.path), v.at(l.to);
    RenamedIs(nodes + t.acted.made, src, dst);
    RestoreUndoesMove(v, nodes, t.acted.made, t.action.path, l, AfterTry(v, nodes, t), more);
    if src !in more { MadeBeside(nodes, t.acted.made, Renamed(more, dst, src)); }
  }

  lemma MadeBeside(nodes: Nodes, made: Nodes, more: Nodes)
    requires Makes(nodes, made) && Beside(nodes + made, more)
    ensures nodes + made + more == nodes + (made + more) && Beside(nodes, made + more)
  {
  }

  /** Undoing the moves of the tries, last first, beside what later ones made: each works
      exactly when nothing made lies in its way, and then the disk is as it was before
      them, beside all that was made. */
  lemma {:induction false} MovesUndone(v: Volume, nodes: Nodes, run: string, tries: seq<Try>, more: Nodes)
    requires Closed(nodes) && AllPossible(v, nodes, tries) && Beside(AfterTries(v, nodes, tries), more)
    ensures var all, moves := AfterTries(v, nodes, tries) + more, MovesOf(run, tries);
      && (Put(v, all, moves) == |moves| <==> Clear(v, tries, more))
      && (Clear(v, tries, more) ==>
            UndoAll(v, all, moves) == nodes + Left(v, tries, more) && Beside(nodes, Left(v, tries, more)))
  {
    if tries != [] {
      var n := |tries| - 1;
      FewerPossible(v, nodes, tries, n);
      StaysClosed(v, nodes, tries[..n]);
      MoveUndone(v, AfterTries(v, nodes, tries[..n]), run, tries[n], MovesOf(run, tries[..n]), more,
                 AfterTries(v, nodes, tries) + more);
      if MovedBy(tries[n]) ==> v.at(tries[n].action.path) !in more {
        MovesUndone(v, nodes, run, tries[..n], Back(v, tries[n], more));
      }
    }
  }

  lemma MoveUndone(v: Volume, nodes: Nodes, run: string, t: Try, rest: seq<Entry>, more: Nodes, all: Nodes)
    requires Closed(nodes) && Possible(v, nodes, t) && Receipts(rest)
    requires Beside(AfterTry(v, nodes, t), more) && all == AfterTry(v, nodes, t) + more
    ensures var es, back := Prepended(run, t, rest), nodes + Back(v, t, more);
      if MovedBy(t) && v.at(t.action.path) in more then Put(v, all, es) < |es|
      else
        && UndoAll(v, all, es) == UndoAll(v, back, rest)
        && Put(v, all, es) == Put(v, back, rest) + |es| - |rest| && Beside(nodes, Back(v, t, more))
  {
    if MovedBy(t) {
      UndoOne(v, nodes, t, more);
      FoldFirst(Works(v), Restoring(v), all, EndLine(run, t), rest);
      WorkedFew(Works(v), Restoring(v), AfterRestore(v, all, t.acted.receipt.value), rest);
    } else {
      MadeBeside(nodes, t.acted.made, more);
    }
  }

  lemma {:induction false} WorkedFew(works: (Nodes, Receipt) -> bool, step: Step, nodes: Nodes, es: seq<Entry>)
    requires Receipts(es)
    ensures Worked(works, step, nodes, es) <= |es|
  {
    if es != [] { WorkedFew(works, step, nodes, es[..|es| - 1]); }
  }

  /** Undo right after the run, when no copy is found gone and nothing made is in the way:
      every Trash and staging move is restored, and the disk is as it was before the run,
      beside what the run made. */
  lemma UndoInverts(v: Volume, nodes: Nodes, run: string, tries: seq<Try>, r: Run)
    requires Closed(nodes) && AllPossible(v, nodes, tries) && Ordered(tries) && r.entries == Lines(run, tries)
    requires Missing(r, v, AfterTries(v, nodes, tries)) == [] && Clear(v, tries, map[])
    ensures var after, present := AfterTries(v, nodes, tries), Present(r, v, AfterTries(v, nodes, tries));
      && present == MovesOf(run, tries)
      && Put(v, after, present) == |present|
      && UndoAll(v, after, present) == nodes + Left(v, tries, map[]) && Left(v, tries, map[]).Keys !! nodes.Keys
  {
    var after := AfterTries(v, nodes, tries);
    LinesNotUndone(run, tries);
    PendingIsMoves(v, nodes, run, tries);
    ThoseAll(r, GoneNow(v, after), MovesOf(run, tries));
    AllUndoneOrNot(v, nodes, run, tries);
  }

  lemma AllUndoneOrNot(v: Volume, nodes: Nodes, run: string, tries: seq<Try>)
    requires Closed(nodes) && AllPossible(v, nodes, tries)
    ensures var after, moves := AfterTries(v, nodes, tries), MovesOf(run, tries);
      && (Put(v, after, moves) == |moves| <==> Clear(v, tries, map[]))
      && (Clear(v, tries, map[]) ==>
            UndoAll(v, after, moves) == nodes + Left(v, tries, map[]) && Left(v, tries, map[]).Keys !! nodes.Keys)
  {
    var after := AfterTries(v, nodes, tries);
    StaysClosed(v, nodes, tries);
    assert after + map[] == after;
    MovesUndone(v, nodes, run, tries, map[]);
  }

  lemma {:induction false} LinesNotUndone(run: string, tries: seq<Try>)
    ensures Undone(Lines(run, tries)) == {}
  {
    if tries != [] { LinesNotUndone(run, tries[..|tries| - 1]); }
  }

  /** Every move restored and journaled, a second undo finds nothing to attempt. */
  lemma SecondUndoIdle(v: Volume, nodes: Nodes, run: string, now: int, tries: seq<Try>)
    requires Closed(nodes) && AllPossible(v, nodes, tries) && Ordered(tries) && Clear(v, tries, map[])
    ensures var es := Lines(run, tries) + UndoLines(v, AfterTries(v, nodes, tries), run, now, MovesOf(run, tries));
      PendingOf(es, Undone(es)) == []
  {
    var more := UndoLines(v, AfterTries(v, nodes, tries), run, now, MovesOf(run, tries));
    AllUndoneOrNot(v, nodes, run, tries);
    UndoLinesAre(Works(v), Restoring(v), AfterTries(v, nodes, tries), run, now, MovesOf(run, tries));
    PendingIsMoves(v, nodes, run, tries);
    AllUndone(Lines(run, tries), more);
  }

  /** Each pending move has its undo line, without error. */
  lemma AllUndone(es: seq<Entry>, more: seq<Entry>)
    requires |more| == |PendingOf(es, {})|
    requires forall k | 0 <= k < |more| ::
      more[k].event == Event.Undo && more[k].error == "" && more[k].num == PendingOf(es, {})[k].num
    ensures PendingOf(es + more, Undone(es + more)) == []
  {
    var undone := Undone(es + more);
    forall e <- es + more ensures !CanUndo(e, undone) {
      if CanUndo(e, {}) {
        PendingHolds(es, {});
        assert e in es && multiset(PendingOf(es, {}))[e] > 0;
        var k :| 0 <= k < |more| && PendingOf(es, {})[k] == e;
        assert more[k] in es + more && more[k].num == e.num;
      }
    }
    NonePending(es + more, undone);
  }

  lemma {:induction false} NonePending(es: seq<Entry>, undone: set<int>)
    requires forall e <- es :: !CanUndo(e, undone)
    ensures PendingOf(es, undone) == []
  {
    if es != [] { NonePending(es[..|es| - 1], undone); }
  }

  /** One undo line for each entry, and none with an error when all of them worked. */
  ghost predicate LinesMatch(lines: seq<Entry>, es: seq<Entry>, worked: nat) {
    && |lines| == |es| && worked <= |es|
    && (forall k | 0 <= k < |es| :: lines[k].event == Event.Undo && lines[k].num == es[k].num)
    && (worked == |es| ==> forall k | 0 <= k < |es| :: lines[k].error == "")
  }

  lemma MatchNext(lines: seq<Entry>, es: seq<Entry>, worked: nat, line: Entry, e: Entry, ok: bool)
    requires LinesMatch(lines, es, worked) && line.event == Event.Undo && line.num == e.num && (ok ==> line.error == "")
    ensures LinesMatch(lines + [line], es + [e], worked + if ok then 1 else 0)
  {
  }

  lemma {:induction false} UndoLinesAre(works: (Nodes, Receipt) -> bool, step: Step, nodes: Nodes, run: string,
                                        now: int, es: seq<Entry>)
    requires Receipts(es)
    ensures LinesMatch(LinesFrom(works, step, nodes, run, now, es), es, Worked(works, step, nodes, es))
  {
    if es != [] {
      var n := |es| - 1;
      var before, e := es[..n], es[n];
      var ok := works(Fold(step, nodes, before), e.receipt.value);
      UndoLinesAre(works, step, nodes, run, now, before);
      MatchNext(LinesFrom(works, step, nodes, run, now, before), before, Worked(works, step, nodes, before),
        UndoLine(run, now, e, ok), e, ok);
      assert es == before + [e];
    }
  }

  // ---- after an undo that did not put everything back ----

  lemma {:induction false} UndoLineAt(works: (Nodes, Receipt) -> bool, step: Step, nodes: Nodes, run: string, now: int,
                                      es: seq<Entry>, k: nat)
    requires Receipts(es) && k < |es|
    ensures var lines := LinesFrom(works, step, nodes, run, now, es);
      |lines| == |es| && lines[k] == UndoLine(run, now, es[k], works(Fold(step, nodes, es[..k]), es[k].receipt.value))
  {
    var n := |es| - 1;
    UndoLinesAre(works, step, nodes, run, now, es[..n]);
    if k < n {
      UndoLineAt(works, step, nodes, run, now, es[..n], k);
      assert es[..n][..k] == es[..k];
    }
  }

  /** What an undo's line k says: which move of the run, and an error exactly when that
      restore was refused, on the disk as the restores before it left it. */
  ghost predicate SaysSo(v: Volume, nodes0: Nodes, run: string, now: int, present: seq<Entry>, lines: seq<Entry>,
                         k: nat)
    requires k < |lines| <= |present| && Receipts(present[..|lines|])
  {
    assert present[..|lines|][k] == present[k];
    && lines[k].event == Event.Undo && lines[k].run == run && lines[k].num == present[k].num && lines[k].time == now
    && lines[k].ruleID == present[k].ruleID && lines[k].path == present[k].receipt.value.original
    && lines[k].itemKey == "" && lines[k].kind.None? && lines[k].bytes == 0
    && lines[k].receipt.None? && lines[k].pruned.None?
    && (lines[k].error == "" <==> Restores(v, UndoAll(v, nodes0, present[..k]), present[k].receipt.value))
  }

  lemma LinesSaySo(v: Volume, nodes0: Nodes, nodes: Nodes, r: Run, now: int, present: seq<Entry>, n: nat,
                   res: UndoResult, lines: seq<Entry>, logged: bool)
    requires Undid(v, nodes0, nodes, r, now, present, n, res, lines, logged)
    ensures |lines| == (if logged then n else n - 1) && Receipts(present[..|lines|])
    ensures forall k | 0 <= k < |lines| :: SaysSo(v, nodes0, r.id, now, present, lines, k)
  {
    var m := if logged then n else n - 1;
    assert present[..n][..m] == present[..m];
    UndoLinesAre(Works(v), Restoring(v), nodes0, r.id, now, present[..m]);
    forall k | 0 <= k < m ensures SaysSo(v, nodes0, r.id, now, present, lines, k) {
      UndoLineAt(Works(v), Restoring(v), nodes0, r.id, now, present[..m], k);
      assert present[..m][..k] == present[..k];
    }
  }

  /** After the lines an undo leaves, wherever it stopped, the moves still pending are those
      pending before but for the ones a restore put back and a line says so: a restore that
      was refused, and one that was not reached, stay pending. */
  lemma PendingAfterUndo(v: Volume, nodes0: Nodes, nodes: Nodes, r: Run, now: int, present: seq<Entry>, n: nat,
                         res: UndoResult, lines: seq<Entry>, logged: bool)
    requires Undid(v, nodes0, nodes, r, now, present, n, res, lines, logged)
    ensures |lines| <= |present| && Receipts(present[..|lines|])
    ensures var es := r.entries + lines;
      forall e :: e in PendingOf(es, Undone(es)) <==>
        && e in PendingOf(r.entries, Undone(r.entries))
        && !exists k :: 0 <= k < |lines| && present[k].num == e.num && lines[k].error == ""
    ensures forall k | 0 <= k < |lines| :: SaysSo(v, nodes0, r.id, now, present, lines, k)
  {
    LinesSaySo(v, nodes0, nodes, r, now, present, n, res, lines, logged);
    forall k | 0 <= k < |lines| ensures lines[k].event == Event.Undo && lines[k].num == present[k].num {
      assert SaysSo(v, nodes0, r.id, now, present, lines, k);
    }
    StillPending(r.entries, lines, present);
  }

  lemma StillPending(es: seq<Entry>, lines: seq<Entry>, present: seq<Entry>)
    requires |lines| <= |present|
    requires forall k | 0 <= k < |lines| :: lines[k].event == Event.Undo && lines[k].num == present[k].num
    ensures forall e ::
      e in PendingOf(es + lines, Undone(es + lines)) <==>
      e in PendingOf(es, Undone(es)) && !exists k :: 0 <= k < |lines| && present[k].num == e.num && lines[k].error == ""
  {
    forall e
      ensures e in PendingOf(es + lines, Undone(es + lines)) <==>
        e in PendingOf(es, Undone(es)) && !exists k ::
          0 <= k < |lines| && present[k].num == e.num && lines[k].error == ""
    {
      PendingIsOpen(es, e);
      PendingIsOpen(es + lines, e);
      OpenAfter(es, lines, present, e);
    }
  }

  /** e records a move that can be put back and no line says, without an error, that it was. */
  ghost predicate Open(es: seq<Entry>, e: Entry) {
    && e in es && e.event == Done && e.receipt.Some? && e.receipt.value.how != Export
    && forall x <- es :: !(x.event == Event.Undo && x.num == e.num && x.error == "")
  }

  lemma PendingIsOpen(es: seq<Entry>, e: Entry)
    ensures e in PendingOf(es, Undone(es)) <==> Open(es, e)
  {
    PendingExactly(es);
    assert e in PendingOf(es, Undone(es)) <==> multiset(PendingOf(es, Undone(es)))[e] > 0;
    assert e in es <==> multiset(es)[e] > 0;
  }

  lemma OpenAfter(es: seq<Entry>, lines: seq<Entry>, present: seq<Entry>, e: Entry)
    requires |lines| <= |present|
    requires forall k | 0 <= k < |lines| :: lines[k].event == Event.Undo && lines[k].num == present[k].num
    ensures Open(es + lines, e) <==>
      Open(es, e) && !exists k :: 0 <= k < |lines| && present[k].num == e.num && lines[k].error == ""
  {
    assert forall x :: x in es + lines <==> x in es || x in lines;
    if Open(es + lines, e) {
      forall k | 0 <= k < |lines| ensures !(present[k].num == e.num && lines[k].error == "") {
        assert lines[k] in es + lines;
      }
    }
  }

  /** So the next undo attempts just those of them whose copy is there and whose name no
      later action took; a restore that was refused is tried again. */
  lemma NextUndoTries(v: Volume, nodes0: Nodes, nodes: Nodes, r: Run, now: int, present: seq<Entry>, n: nat,
                      res: UndoResult, lines: seq<Entry>, logged: bool, next: Run, disk: Nodes)
    requires Undid(v, nodes0, nodes, r, now, present, n, res, lines, logged)
    requires next.entries == r.entries + lines && next.reused == r.reused
    ensures |lines| <= |present|
    ensures forall e ::
      e in Present(next, v, disk) <==>
      && e in PendingOf(r.entries, Undone(r.entries)) && e.receipt.Some?
      && (!exists k :: 0 <= k < |lines| && present[k].num == e.num && lines[k].error == "")
      && e.num !in r.reused && !Gone(v, disk, e.receipt.value)
  {
    PendingAfterUndo(v, nodes0, nodes, r, now, present, n, res, lines, logged);
    ThoseExactly(next, GoneNow(v, disk), PendingOf(next.entries, Undone(next.entries)));
  }

  lemma {:induction false} ThoseExactly(r: Run, gone: Receipt -> bool, es: seq<Entry>)
    ensures forall e ::
      e in Those(r, gone, es, true) <==> e in es && e.receipt.Some? && e.num !in r.reused && !gone(e.receipt.value)
  {
    if es != [] {
      ThoseExactly(r, gone, es[..|es| - 1]);
      assert es == es[..|es| - 1] + [es[|es| - 1]];
    }
  }

  /** And the history of a run and of an undo right after it counts as before all but what
      was put back, and how many that are. */
  lemma HistoryAfterIt(v: Volume, nodes0: Nodes, nodes: Nodes, r: Run, now: int, present: seq<Entry>, n: nat,
                       res: UndoResult, lines: seq<Entry>, logged: bool, tries: seq<Try>, s: Summary, back: set<int>)
    requires Undid(v, nodes0, nodes, r, now, present, n, res, lines, logged)
    requires r.entries == Lines(r.id, tries) && History.Sensible(tries)
    requires |lines| <= |present|
    requires forall num ::
      num in back <==> exists k :: 0 <= k < |lines| && present[k].num == num && lines[k].error == ""
    requires var es := r.entries + lines; CountedTo(es, s) && Summed(es, Undone(es), |es|, s)
    ensures History.Agrees(s, tries, back)
    ensures logged ==> s.undone == res.restored
  {
    LinesSaySo(v, nodes0, nodes, r, now, present, n, res, lines, logged);
    forall k | 0 <= k < |lines| ensures lines[k].event == Event.Undo && lines[k].num == present[k].num {
      assert SaysSo(v, nodes0, r.id, now, present, lines, k);
    }
    forall num ensures num in back <==> exists x <- lines :: x.num == num && x.error == "" {
      if num in back {
        var k :| 0 <= k < |lines| && present[k].num == num && lines[k].error == "";
        assert lines[k] in lines;
      }
    }
    History.HistoryAfterUndo(r.id, tries, lines, back, s);
    if logged { RestoredLines(Works(v), Restoring(v), nodes0, r.id, now, present[..n]); }
  }

  lemma {:induction false} RestoredLines(works: (Nodes, Receipt) -> bool, step: Step, nodes: Nodes, run: string,
                                         now: int, es: seq<Entry>)
    requires Receipts(es)
    ensures History.Worked(LinesFrom(works, step, nodes, run, now, es)) == Worked(works, step, nodes, es)
  {
    if es != [] {
      var n := |es| - 1;
      var lines := LinesFrom(works, step, nodes, run, now, es);
      RestoredLines(works, step, nodes, run, now, es[..n]);
      assert lines[..|lines| - 1] == LinesFrom(works, step, nodes, run, now, es[..n]);
    }
  }

  /** What undo leaves alone: the run's done lines without a receipt, and those with the
      receipt of an export. */
  lemma {:induction false} KeptExactly(es: seq<Entry>)
    ensures Unmoved(es) == |Places(es, (e: Entry) => e.event == Done && e.receipt.None?)|
    ensures Exports(es) ==
      |Places(es, (e: Entry) => e.event == Done && e.receipt.Some? && e.receipt.value.how == Export)|
  {
    if es != [] {
      KeptExactly(es[..|es| - 1]);
      PlacesNext(es, (e: Entry) => e.event == Done && e.receipt.None?);
      PlacesNext(es, (e: Entry) => e.event == Done && e.receipt.Some? && e.receipt.value.how == Export);
    }
  }

  // ---- when every copy is there to be put back ----

  /** No two names lead to one item. */
  predicate OneEach(nodes: Nodes) {
    forall p, q | p in nodes && q in nodes && nodes[p] == nodes[q] :: p == q
  }

  lemma RenamedOneEach(nodes: Nodes, src: Place, dst: Place)
    requires OneEach(nodes)
    ensures OneEach(Renamed(nodes, src, dst))
  {
    var after := Renamed(nodes, src, dst);
    RenamedIs(nodes, src, dst);
    forall p, q | p in after && q in after && after[p] == after[q] ensures p == q {
      assert Reaches(nodes, src, dst, p) && Reaches(nodes, src, dst, q);
      SameOrigin(p, q, src, dst);
    }
  }

  lemma MadeOneEach(nodes: Nodes, made: Nodes)
    requires OneEach(nodes) && Makes(nodes, made)
    ensures OneEach(nodes + made)
  {
  }

  lemma SameOrigin(p: Place, q: Place, src: Place, dst: Place)
    requires Was(p, src, dst) == Was(q, src, dst)
    requires (dst <= p || !(src <= p)) && (dst <= q || !(src <= q))
    ensures p == q
  {
    if dst <= p && dst <= q {
      assert p == dst + (src + p[|dst|..])[|src|..] && q == dst + (src + q[|dst|..])[|src|..];
    }
    if dst <= p { assert src <= Was(p, src, dst); }
    if dst <= q { assert src <= Was(q, src, dst); }
  }

  lemma {:induction false} StaysOneEach(v: Volume, nodes: Nodes, tries: seq<Try>)
    requires OneEach(nodes) && AllPossible(v, nodes, tries)
    ensures OneEach(AfterTries(v, nodes, tries))
  {
    if tries != [] {
      var n := |tries| - 1;
      var before, t := AfterTries(v, nodes, tries[..n]), tries[n];
      StaysOneEach(v, nodes, tries[..n]);
      MadeOneEach(before, t.acted.made);
      if MovedBy(t) {
        RenamedOneEach(before + t.acted.made, v.at(t.action.path), v.at(t.acted.receipt.value.to));
      }
    }
  }

  /** Where the copy of try j is after the first m tries: later moves of a folder that
      holds it take it along. */
  function Trail(v: Volume, tries: seq<Try>, j: nat, m: nat): Place
    requires j < m <= |tries| && MovedBy(tries[j])
  {
    if m == j + 1 then v.at(tries[j].acted.receipt.value.to)
    else
      var q := Trail(v, tries, j, m - 1);
      if MovedBy(tries[m - 1])
      then Becomes(q, v.at(tries[m - 1].action.path), v.at(tries[m - 1].acted.receipt.value.to))
      else q
  }

  lemma AfterNext(v: Volume, nodes: Nodes, tries: seq<Try>, m: nat)
    requires 0 < m <= |tries|
    ensures AfterTries(v, nodes, tries[..m]) == AfterTry(v, AfterTries(v, nodes, tries[..m - 1]), tries[m - 1])
  {
    assert tries[..m][..m - 1] == tries[..m - 1];
  }

  lemma PossibleAt(v: Volume, nodes: Nodes, tries: seq<Try>, k: nat)
    requires AllPossible(v, nodes, tries) && k < |tries|
    ensures Possible(v, AfterTries(v, nodes, tries[..k]), tries[k])
  {
    FewerPossible(v, nodes, tries, k + 1);
    assert tries[..k + 1][..k] == tries[..k];
  }

  /** The item now at q goes along to where q leads. */
  lemma GoesTo(v: Volume, nodes: Nodes, t: Try, q: Place, item: nat)
    requires Possible(v, nodes, t) && MovedBy(t) && q in nodes + t.acted.made && (nodes + t.acted.made)[q] == item
    ensures var to := Becomes(q, v.at(t.action.path), v.at(t.acted.receipt.value.to));
      to in AfterTry(v, nodes, t) && AfterTry(v, nodes, t)[to] == item
  {
    var src, dst := v.at(t.action.path), v.at(t.acted.receipt.value.to);
    RenamedIs(nodes + t.acted.made, src, dst);
    if src <= q {
      assert (dst + q[|src|..])[|dst|..] == q[|src|..] && src + q[|src|..] == q;
    }
    assert Reaches(nodes + t.acted.made, src, dst, Becomes(q, src, dst));
  }

  lemma Lands(v: Volume, nodes: Nodes, t: Try) returns (item: nat)
    requires Possible(v, nodes, t) && MovedBy(t)
    ensures var r, after := t.acted.receipt.value, AfterTry(v, nodes, t);
      v.at(r.to) in after && after[v.at(r.to)] == item && r.ino in {0, item}
  {
    var l: Landing :| MoveWent(v, nodes, t, l);
    var src, dst := v.at(t.action.path), v.at(l.to);
    item := nodes[src];
    GoesTo(v, nodes, t, src, item);
    assert Becomes(src, src, dst) == dst;
  }

  /** The item a move put somewhere is where its trail leads. */
  lemma {:induction false} TrailHolds(v: Volume, nodes: Nodes, tries: seq<Try>, j: nat, m: nat) returns (item: nat)
    requires AllPossible(v, nodes, tries) && j < m <= |tries| && MovedBy(tries[j])
    ensures var after := AfterTries(v, nodes, tries[..m]);
      Trail(v, tries, j, m) in after && after[Trail(v, tries, j, m)] == item
    ensures tries[j].acted.receipt.value.ino in {0, item}
  {
    var before := AfterTries(v, nodes, tries[..m - 1]);
    PossibleAt(v, nodes, tries, m - 1);
    AfterNext(v, nodes, tries, m);
    if m == j + 1 {
      item := Lands(v, before, tries[j]);
    } else {
      item := TrailHolds(v, nodes, tries, j, m - 1);
      if MovedBy(tries[m - 1]) {
        GoesTo(v, before, tries[m - 1], Trail(v, tries, j, m - 1), item);
      }
    }
  }

  /** Where the copy of try j landed there is still the item its trail leads to; a copy
      whose identity was not recorded is judged by its place alone. */
  ghost predicate InPlace(v: Volume, nodes: Nodes, tries: seq<Try>, j: nat)
    requires j < |tries| && MovedBy(tries[j])
  {
    var r, after, trail := tries[j].acted.receipt.value, AfterTries(v, nodes, tries), Trail(v, tries, j, |tries|);
    v.at(r.to) in after && (r.ino != 0 ==> trail in after && after[v.at(r.to)] == after[trail])
  }

  /** With one name for each item, that is where the trail leads. */
  lemma TrailDecides(v: Volume, nodes: Nodes, tries: seq<Try>, j: nat)
    requires OneEach(nodes) && AllPossible(v, nodes, tries) && j < |tries| && MovedBy(tries[j])
    requires tries[j].acted.receipt.value.ino != 0
    ensures InPlace(v, nodes, tries, j) <==> Trail(v, tries, j, |tries|) == v.at(tries[j].acted.receipt.value.to)
  {
    assert tries[..|tries|] == tries;
    StaysOneEach(v, nodes, tries);
    var item := TrailHolds(v, nodes, tries, j, |tries|);
  }

  /** A copy is judged gone exactly when later moves of the run took it elsewhere. */
  lemma GoneExactly(v: Volume, nodes: Nodes, tries: seq<Try>, j: nat)
    requires AllPossible(v, nodes, tries) && j < |tries| && MovedBy(tries[j])
    ensures Gone(v, AfterTries(v, nodes, tries), tries[j].acted.receipt.value) <==> !InPlace(v, nodes, tries, j)
  {
    assert tries[..|tries|] == tries;
    var item := TrailHolds(v, nodes, tries, j, |tries|);
  }

  predicate Receipted(t: Try) { t.acted.ok && t.acted.receipt.Some? }

  /** A later copy of the run bears the name of try j's. */
  ghost predicate TakenAgain(tries: seq<Try>, fold: string -> string, j: nat)
    requires j < |tries| && Receipted(tries[j])
  {
    exists k :: j < k < |tries| && Receipted(tries[k])
      && SameName(tries[j].acted.receipt.value, tries[k].acted.receipt.value, fold)
  }

  /** Every move of the run is found right after it: no later copy bears its copy's
      name, and its copy is where it landed. */
  ghost predicate AllFound(v: Volume, nodes: Nodes, tries: seq<Try>) {
    forall j | 0 <= j < |tries| && MovedBy(tries[j]) :: !TakenAgain(tries, v.fold, j) && InPlace(v, nodes, tries, j)
  }

  /** And can be undone: nothing the run made later is in its way. */
  ghost predicate Undoable(v: Volume, nodes: Nodes, tries: seq<Try>) {
    AllFound(v, nodes, tries) && Clear(v, tries, map[])
  }

  // ---- from the whole journal ----

  lemma {:induction false} LinesAt(run: string, tries: seq<Try>, k: nat)
    requires k < |tries|
    ensures Lines(run, tries)[2 * k] == StartLine(run, tries[k])
      && Lines(run, tries)[2 * k + 1] == EndLine(run, tries[k])
  {
    if k < |tries| - 1 { LinesAt(run, tries[..|tries| - 1], k); }
  }

  lemma RunIsLines(prior: seq<Entry>, run: string, tries: seq<Try>)
    requires forall i | 0 <= i < |prior| :: prior[i].run != run
    ensures OfRun(prior + Lines(run, tries), run) == Lines(run, tries)
  {
    LinesOfRun(run, tries);
    OfRunAppended(prior, Lines(run, tries), run);
  }

  lemma MovedAt(prior: seq<Entry>, run: string, tries: seq<Try>, i: nat) returns (k: nat)
    requires |prior| <= i < |prior| + |Lines(run, tries)| && Moved((prior + Lines(run, tries))[i])
    ensures k < |tries| && i == |prior| + 2 * k + 1 && (prior + Lines(run, tries))[i] == EndLine(run, tries[k])
    ensures Receipted(tries[k])
  {
    k := (i - |prior|) / 2;
    LinesAt(run, tries, k);
  }

  lemma EndLineAt(prior: seq<Entry>, run: string, tries: seq<Try>, k: nat)
    requires k < |tries|
    ensures |prior| + 2 * k + 1 < |prior + Lines(run, tries)|
    ensures (prior + Lines(run, tries))[|prior| + 2 * k + 1] == EndLine(run, tries[k])
  {
    LinesAt(run, tries, k);
  }

  /** The run as the whole journal gives it. */
  ghost predicate ReadBack(prior: seq<Entry>, run: string, tries: seq<Try>, fold: string -> string, r: Run) {
    && (forall i | 0 <= i < |prior| :: prior[i].run != run)
    && r.id == run && IsRunOf(prior + Lines(run, tries), |prior| + |Lines(run, tries)|, fold, r)
  }

  /** A move of the run is marked exactly when a later copy of the run bears its name. */
  lemma ReusedExactly(prior: seq<Entry>, run: string, tries: seq<Try>, fold: string -> string, r: Run, j: nat)
    requires ReadBack(prior, run, tries, fold, r) && Ordered(tries)
    requires j < |tries| && Receipted(tries[j]) && tries[j].acted.receipt.value.Restorable()
    ensures tries[j].num in r.reused <==> TakenAgain(tries, fold, j)
  {
    if tries[j].num in r.reused { MarkedIsTaken(prior, run, tries, fold, r, j); }
    if TakenAgain(tries, fold, j) { TakenIsMarked(prior, run, tries, fold, r, j); }
  }

  lemma MarkedIsTaken(prior: seq<Entry>, run: string, tries: seq<Try>, fold: string -> string, r: Run, j: nat)
    requires ReadBack(prior, run, tries, fold, r) && Ordered(tries)
    requires j < |tries| && Receipted(tries[j]) && tries[j].num in r.reused
    ensures TakenAgain(tries, fold, j)
  {
    MarksRead(prior, run, tries, fold, r);
    var x := MarkedLine(prior + Lines(run, tries), run, fold, tries[j].num);
    MarkedTry(prior, run, tries, fold, j, x);
  }

  lemma MarkedTry(prior: seq<Entry>, run: string, tries: seq<Try>, fold: string -> string, j: nat, x: nat)
    requires Ordered(tries) && j < |tries| && forall i | 0 <= i < |prior| :: prior[i].run != run
    requires var es := prior + Lines(run, tries);
      x < |es| && es[x].run == run && Reused(es, x, fold) && es[x].num == tries[j].num
    ensures Receipted(tries[j]) && TakenAgain(tries, fold, j)
  {
    var k := MovedAt(prior, run, tries, x);
    LaterTaker(prior, run, tries, fold, k);
  }

  lemma MarksRead(prior: seq<Entry>, run: string, tries: seq<Try>, fold: string -> string, r: Run)
    requires ReadBack(prior, run, tries, fold, r)
    ensures var es := prior + Lines(run, tries); r.reused == ReusedOf(es, |es|, run, fold)
  {
  }

  lemma MarkedLine(es: seq<Entry>, run: string, fold: string -> string, num: int) returns (x: nat)
    requires num in ReusedOf(es, |es|, run, fold)
    ensures x < |es| && es[x].run == run && Reused(es, x, fold) && es[x].num == num
  {
    x :| x < |es| && es[x].run == run && Reused(es, x, fold) && es[x].num == num;
  }

  lemma TakenIsMarked(prior: seq<Entry>, run: string, tries: seq<Try>, fold: string -> string, r: Run, j: nat)
    requires ReadBack(prior, run, tries, fold, r)
    requires j < |tries| && Receipted(tries[j]) && tries[j].acted.receipt.value.Restorable()
      && TakenAgain(tries, fold, j)
    ensures tries[j].num in r.reused
  {
    var es := prior + Lines(run, tries);
    var k :| j < k < |tries| && Receipted(tries[k])
      && SameName(tries[j].acted.receipt.value, tries[k].acted.receipt.value, fold);
    EndLineAt(prior, run, tries, j);
    EndLineAt(prior, run, tries, k);
    ReusedBy(es, |prior| + 2 * j + 1, |prior| + 2 * k + 1, fold);
  }

  lemma ReusedBy(es: seq<Entry>, i: nat, l: nat, fold: string -> string)
    requires i < l < |es| && Moved(es[i]) && es[i].receipt.value.Restorable() && Moved(es[l])
    requires SameName(es[i].receipt.value, es[l].receipt.value, fold)
    ensures es[i].num in ReusedOf(es, |es|, es[i].run, fold)
  {
    assert Reused(es, i, fold);
  }

  lemma LaterTaker(prior: seq<Entry>, run: string, tries: seq<Try>, fold: string -> string, j: nat)
    requires j < |tries| && Receipted(tries[j])
    requires |prior| + 2 * j + 1 < |prior + Lines(run, tries)|
      && (prior + Lines(run, tries))[|prior| + 2 * j + 1] == EndLine(run, tries[j])
    requires Reused(prior + Lines(run, tries), |prior| + 2 * j + 1, fold)
    ensures TakenAgain(tries, fold, j)
  {
    var es, i := prior + Lines(run, tries), |prior| + 2 * j + 1;
    var l :| i < l < |es| && Moved(es[l]) && SameName(es[i].receipt.value, es[l].receipt.value, fold);
    var k := MovedAt(prior, run, tries, l);
    assert j < k && SameName(tries[j].acted.receipt.value, tries[k].acted.receipt.value, fold);
  }

  lemma {:induction false} MoveIsTried(run: string, tries: seq<Try>, e: Entry) returns (j: nat)
    requires e in MovesOf(run, tries)
    ensures j < |tries| && MovedBy(tries[j]) && e == EndLine(run, tries[j])
  {
    var n := |tries| - 1;
    if MovedBy(tries[n]) && e == EndLine(run, tries[n]) {
      j := n;
    } else {
      j := MoveIsTried(run, tries[..n], e);
    }
  }

  lemma {:induction false} TriedIsMove(run: string, tries: seq<Try>, j: nat)
    requires j < |tries| && MovedBy(tries[j])
    ensures EndLine(run, tries[j]) in MovesOf(run, tries)
  {
    if j < |tries| - 1 { TriedIsMove(run, tries[..|tries| - 1], j); }
  }

  lemma {:induction false} AllThere(r: Run, gone: Receipt -> bool, es: seq<Entry>)
    ensures Those(r, gone, es, false) == [] <==> forall e <- es :: There(r, gone, e)
  {
    if es != [] { AllThere(r, gone, es[..|es| - 1]); }
  }

  lemma ThereExactly(v: Volume, nodes: Nodes, prior: seq<Entry>, run: string, tries: seq<Try>, r: Run, j: nat)
    requires AllPossible(v, nodes, tries) && Ordered(tries) && ReadBack(prior, run, tries, v.fold, r)
    requires j < |tries| && MovedBy(tries[j])
    ensures There(r, GoneNow(v, AfterTries(v, nodes, tries)), EndLine(run, tries[j])) <==>
            !TakenAgain(tries, v.fold, j) && InPlace(v, nodes, tries, j)
  {
    PossibleAt(v, nodes, tries, j);
    GoneExactly(v, nodes, tries, j);
    ReusedExactly(prior, run, tries, v.fold, r, j);
  }

  lemma RunRead(prior: seq<Entry>, run: string, tries: seq<Try>, fold: string -> string, r: Run)
    requires ReadBack(prior, run, tries, fold, r)
    ensures r.entries == Lines(run, tries)
  {
    var es := prior + Lines(run, tries);
    assert es[..|prior| + |Lines(run, tries)|] == es;
    RunIsLines(prior, run, tries);
  }

  /** Right after the run nothing of it is reported gone exactly when every move is found. */
  lemma NoneMissingExactly(v: Volume, nodes: Nodes, prior: seq<Entry>, run: string, tries: seq<Try>, r: Run)
    requires AllPossible(v, nodes, tries) && Ordered(tries) && ReadBack(prior, run, tries, v.fold, r)
    ensures Missing(r, v, AfterTries(v, nodes, tries)) == [] <==> AllFound(v, nodes, tries)
  {
    var gone := GoneNow(v, AfterTries(v, nodes, tries));
    RunRead(prior, run, tries, v.fold, r);
    LinesNotUndone(run, tries);
    PendingIsMoves(v, nodes, run, tries);
    AllThere(r, gone, MovesOf(run, tries));
    forall j | 0 <= j < |tries| && MovedBy(tries[j])
      ensures EndLine(run, tries[j]) in MovesOf(run, tries)
      ensures There(r, gone, EndLine(run, tries[j])) <==> !TakenAgain(tries, v.fold, j) && InPlace(v, nodes, tries, j)
    {
      TriedIsMove(run, tries, j);
      ThereExactly(v, nodes, prior, run, tries, r, j);
    }
    forall e <- MovesOf(run, tries) ensures AllFound(v, nodes, tries) ==> There(r, gone, e) {
      var j := MoveIsTried(run, tries, e);
    }
  }

  /** An action of the run made this: a staging folder, or an export's tarball. */
  predicate MadeByRun(tries: seq<Try>, item: nat) {
    exists t <- tries :: item in t.acted.made.Values
  }

  /** Each place is as it was, beside what the run made, all of which is still there. */
  ghost predicate PlacesBack(nodes: Nodes, tries: seq<Try>, back: Nodes) {
    && (forall p <- nodes :: p in back && back[p] == nodes[p])
    && (forall p <- back :: p in nodes || MadeByRun(tries, back[p]))
    && (forall item | MadeByRun(tries, item) :: item in back.Values)
  }

  /** Undo would try every Trash and staging move of the run, each works, and each place
      is then as it was before the run. */
  ghost predicate GivenBack(v: Volume, nodes: Nodes, run: string, tries: seq<Try>, r: Run) {
    var after, moves := AfterTries(v, nodes, tries), MovesOf(run, tries);
    Present(r, v, after) == moves && Put(v, after, moves) == |moves|
      && PlacesBack(nodes, tries, UndoAll(v, after, moves))
  }

  lemma LeftBeside(v: Volume, nodes: Nodes, tries: seq<Try>, back: Nodes)
    requires Closed(nodes) && AllPossible(v, nodes, tries) && Clear(v, tries, map[])
    requires back == nodes + Left(v, tries, map[]) && Left(v, tries, map[]).Keys !! nodes.Keys
    ensures PlacesBack(nodes, tries, back)
  {
    assert tries[..|tries|] == tries;
    LeftIsMade(v, tries, |tries|, map[]);
    forall item | MadeByRun(tries, item) ensures item in Left(v, tries, map[]).Values {
      AllLeft(v, nodes, tries, item);
    }
    BesideIsBack(nodes, tries, Left(v, tries, map[]), back);
  }

  lemma AllLeft(v: Volume, nodes: Nodes, tries: seq<Try>, item: nat)
    requires Closed(nodes) && AllPossible(v, nodes, tries) && Clear(v, tries, map[]) && MadeByRun(tries, item)
    ensures item in Left(v, tries, map[]).Values
  {
    StaysClosed(v, nodes, tries);
    assert AfterTries(v, nodes, tries) + map[] == AfterTries(v, nodes, tries);
    LeftHolds(v, nodes, tries, map[], item);
  }

  lemma BesideIsBack(nodes: Nodes, tries: seq<Try>, left: Nodes, back: Nodes)
    requires left.Keys !! nodes.Keys && back == nodes + left
    requires forall p <- left :: MadeByRun(tries, left[p])
    requires forall item | MadeByRun(tries, item) :: item in left.Values
    ensures PlacesBack(nodes, tries, back)
  {
    forall item | MadeByRun(tries, item) ensures item in back.Values { BothHold(nodes, left, item); }
  }

  /** Nothing the run made is lost on the way back. */
  lemma {:induction false} LeftHolds(v: Volume, nodes: Nodes, tries: seq<Try>, more: Nodes, item: nat)
    requires Closed(nodes) && AllPossible(v, nodes, tries) && Beside(AfterTries(v, nodes, tries), more)
    requires Clear(v, tries, more) && (item in more.Values || MadeByRun(tries, item))
    ensures item in Left(v, tries, more).Values
  {
    if tries != [] {
      var n := |tries| - 1;
      var before, t := AfterTries(v, nodes, tries[..n]), tries[n];
      FewerPossible(v, nodes, tries, n);
      StaysClosed(v, nodes, tries[..n]);
      BackIsBeside(v, before, t, more);
      assert tries == tries[..n] + [t];
      if item in t.acted.made.Values || item in more.Values { BackHolds(v, before, t, more, item); }
      LeftHolds(v, nodes, tries[..n], Back(v, t, more), item);
    }
  }

  lemma BackHolds(v: Volume, nodes: Nodes, t: Try, more: Nodes, item: nat)
    requires Closed(nodes) && Possible(v, nodes, t) && Beside(AfterTry(v, nodes, t), more)
    requires MovedBy(t) ==> v.at(t.action.path) !in more
    requires item in t.acted.made.Values || item in more.Values
    ensures item in Back(v, t, more).Values
  {
    if MovedBy(t) {
      var src, dst := v.at(t.action.path), v.at(t.acted.receipt.value.to);
      TryRenames(v, nodes, t);
      MakesCloses(nodes, t.acted.made);
      CarriedHolds(nodes, t.acted.made, src, dst, AfterTry(v, nodes, t), more, item);
    } else {
      BothHold(t.acted.made, more, item);
    }
  }

  lemma CarriedHolds(nodes: Nodes, made: Nodes, src: Place, dst: Place, after: Nodes, more: Nodes, item: nat)
    requires CanRename(nodes + made, src, dst) && Closed(nodes + made) && IsRenamed(nodes + made, src, dst, after)
    requires Beside(after, more) && src !in more && (item in made.Values || item in more.Values)
    ensures item in (made + Renamed(more, dst, src)).Values
  {
    var all := after + more;
    RenamedIs(all, dst, src);
    RenamedIs(more, dst, src);
    BackBeside(nodes + made, src, dst, after, more, all, Renamed(all, dst, src), Renamed(more, dst, src));
    CanRenameBack(nodes + made, src, dst, after);
    FreeBeside(after, src, more);
    if item in more.Values { RenamedHolds(more, dst, src, item); }
    BothHold(made, Renamed(more, dst, src), item);
  }

  lemma BothHold(a: Nodes, b: Nodes, item: nat)
    requires a.Keys !! b.Keys && (item in a.Values || item in b.Values)
    ensures item in (a + b).Values
  {
    var p :| (p in a && a[p] == item) || (p in b && b[p] == item);
    assert p in a + b && (a + b)[p] == item;
  }

  lemma RenamedHolds(nodes: Nodes, src: Place, dst: Place, item: nat)
    requires Free(nodes, dst) && item in nodes.Values
    ensures item in Renamed(nodes, src, dst).Values
  {
    var p :| p in nodes && nodes[p] == item;
    RenamedIs(nodes, src, dst);
    var q := Becomes(p, src, dst);
    if src <= p { assert (dst + p[|src|..])[|dst|..] == p[|src|..] && src + p[|src|..] == p; }
    assert Reaches(nodes, src, dst, q) && Was(q, src, dst) == p;
    assert q in Renamed(nodes, src, dst);
  }

  lemma NothingBeside(nodes: Nodes, tries: seq<Try>, back: Nodes)
    requires PlacesBack(nodes, tries, back) && forall t <- tries :: t.acted.made == map[]
    ensures back == nodes
  {
    forall p <- back ensures p in nodes { assert forall t <- tries :: t.acted.made.Values == {}; }
  }

  lemma {:induction false} LeftIsMade(v: Volume, tries: seq<Try>, n: nat, more: Nodes)
    requires n <= |tries| && forall p <- more :: MadeByRun(tries, more[p])
    ensures forall p <- Left(v, tries[..n], more) :: MadeByRun(tries, Left(v, tries[..n], more)[p])
  {
    if n > 0 {
      assert tries[..n][..n - 1] == tries[..n - 1];
      BackIsMade(v, tries, n - 1, more);
      LeftIsMade(v, tries, n - 1, Back(v, tries[n - 1], more));
    }
  }

  lemma BackIsMade(v: Volume, tries: seq<Try>, k: nat, more: Nodes)
    requires k < |tries| && forall p <- more :: MadeByRun(tries, more[p])
    ensures forall p <- Back(v, tries[k], more) :: MadeByRun(tries, Back(v, tries[k], more)[p])
  {
    var t := tries[k];
    assert forall p <- t.acted.made :: MadeByRun(tries, t.acted.made[p]);
    if MovedBy(t) { RenamedIs(more, v.at(t.acted.receipt.value.to), v.at(t.action.path)); }
  }

  /** Undo right after the run, read back from the whole journal: it restores every
      Trash and staging move, and leaves each place as it was before the run, beside
      what the run made, exactly when no later copy of the run bears a move's name,
      every copy is where it landed, and nothing made is in the way. A run that made
      nothing leaves the disk as it was. */
  lemma UndoRoundTrip(v: Volume, nodes: Nodes, prior: seq<Entry>, run: string, tries: seq<Try>, r: Run)
    requires Closed(nodes) && AllPossible(v, nodes, tries) && Ordered(tries)
    requires ReadBack(prior, run, tries, v.fold, r)
    ensures GivenBack(v, nodes, run, tries, r) <==> Undoable(v, nodes, tries)
    ensures Missing(r, v, AfterTries(v, nodes, tries)) == [] <==> AllFound(v, nodes, tries)
    ensures GivenBack(v, nodes, run, tries, r) && (forall t <- tries :: t.acted.made == map[]) ==>
      UndoAll(v, AfterTries(v, nodes, tries), MovesOf(run, tries)) == nodes
  {
    NoneMissingExactly(v, nodes, prior, run, tries, r);
    RunRead(prior, run, tries, v.fold, r);
    AllPresent(v, nodes, run, tries, r);
    AllUndoneOrNot(v, nodes, run, tries);
    var back := UndoAll(v, AfterTries(v, nodes, tries), MovesOf(run, tries));
    if Undoable(v, nodes, tries) {
      UndoInverts(v, nodes, run, tries, r);
      LeftBeside(v, nodes, tries, back);
    }
    if GivenBack(v, nodes, run, tries, r) && forall t <- tries :: t.acted.made == map[] {
      NothingBeside(nodes, tries, back);
    }
  }

  lemma AllPresent(v: Volume, nodes: Nodes, run: string, tries: seq<Try>, r: Run)
    requires AllPossible(v, nodes, tries) && Ordered(tries) && r.entries == Lines(run, tries)
    ensures var after := AfterTries(v, nodes, tries);
      Present(r, v, after) == MovesOf(run, tries) ==> Missing(r, v, after) == []
  {
    LinesNotUndone(run, tries);
    PendingIsMoves(v, nodes, run, tries);
    ThoseFew(r, GoneNow(v, AfterTries(v, nodes, tries)), MovesOf(run, tries));
  }

  // ---- runs that move no folder a copy is in ----

  /** No later action moves a folder an earlier copy was put in. */
  ghost predicate CopiesStay(v: Volume, tries: seq<Try>) {
    forall j, k | 0 <= j < k < |tries| && MovedBy(tries[j]) && MovedBy(tries[k]) ::
      !(v.at(tries[k].action.path) <= v.at(tries[j].acted.receipt.value.to))
  }

  lemma {:induction false} TrailStays(v: Volume, tries: seq<Try>, j: nat, m: nat)
    requires CopiesStay(v, tries) && j < m <= |tries| && MovedBy(tries[j])
    ensures Trail(v, tries, j, m) == v.at(tries[j].acted.receipt.value.to)
  {
    if m > j + 1 { TrailStays(v, tries, j, m - 1); }
  }

  /** Then every copy is where it landed, so that only names decide. */
  lemma NamesDecide(v: Volume, nodes: Nodes, tries: seq<Try>)
    requires AllPossible(v, nodes, tries) && CopiesStay(v, tries)
    ensures AllFound(v, nodes, tries) <==>
      forall j | 0 <= j < |tries| && MovedBy(tries[j]) :: !TakenAgain(tries, v.fold, j)
  {
    forall j | 0 <= j < |tries| && MovedBy(tries[j]) ensures InPlace(v, nodes, tries, j) {
      assert tries[..|tries|] == tries;
      TrailStays(v, tries, j, |tries|);
      var item := TrailHolds(v, nodes, tries, j, |tries|);
    }
  }

  /** And no two moves land on one place: with a recorded identity, a move loses its
      name to an export at most. */
  lemma LandApart(v: Volume, nodes: Nodes, tries: seq<Try>, j: nat, k: nat)
    requires AllPossible(v, nodes, tries) && CopiesStay(v, tries)
    requires j < k < |tries| && MovedBy(tries[j]) && MovedBy(tries[k])
    ensures v.at(tries[j].acted.receipt.value.to) != v.at(tries[k].acted.receipt.value.to)
  {
    TrailStays(v, tries, j, k);
    var item := TrailHolds(v, nodes, tries, j, k);
    PossibleAt(v, nodes, tries, k);
  }

  // ---- runs that make nothing inside a copy ----

  /** Nothing is made inside a copy an earlier action moved. */
  predicate MadeApart(v: Volume, tries: seq<Try>, more: Nodes) {
    forall j | 0 <= j < |tries| && MovedBy(tries[j]) ::
      var dst := v.at(tries[j].acted.receipt.value.to);
      (forall p <- more :: !(dst <= p)) && forall k, p | j < k < |tries| && p in tries[k].acted.made :: !(dst <= p)
  }

  /** No later action makes anything where a move's item was. */
  predicate PlacesKept(v: Volume, tries: seq<Try>, more: Nodes) {
    forall j | 0 <= j < |tries| && MovedBy(tries[j]) ::
      var src := v.at(tries[j].action.path);
      src !in more && forall k | j < k < |tries| :: src !in tries[k].acted.made
  }

  /** Then nothing made is carried along, and is in a move's way where it was made. */
  lemma {:induction false} ClearIsKept(v: Volume, nodes: Nodes, tries: seq<Try>, more: Nodes)
    requires Closed(nodes) && AllPossible(v, nodes, tries) && Beside(AfterTries(v, nodes, tries), more)
    requires MadeApart(v, tries, more)
    ensures Clear(v, tries, more) <==> PlacesKept(v, tries, more)
  {
    if tries != [] {
      var n := |tries| - 1;
      var t := tries[n];
      FewerPossible(v, nodes, tries, n);
      StaysClosed(v, nodes, tries[..n]);
      KeptBefore(v, tries, more);
      if MovedBy(t) ==> v.at(t.action.path) !in more {
        BackStays(v, AfterTries(v, nodes, tries[..n]), t, more);
        ClearIsKept(v, nodes, tries[..n], t.acted.made + more);
      }
    }
  }

  /** In a run that moves no folder a copy is in and makes nothing inside a copy, every
      move can be undone exactly when no later copy bears a copy's name and no later
      action makes anything where an item was. */
  lemma PlacesDecide(v: Volume, nodes: Nodes, tries: seq<Try>)
    requires Closed(nodes) && AllPossible(v, nodes, tries) && CopiesStay(v, tries) && MadeApart(v, tries, map[])
    ensures Undoable(v, nodes, tries) <==>
      (forall j | 0 <= j < |tries| && MovedBy(tries[j]) :: !TakenAgain(tries, v.fold, j)) && PlacesKept(v, tries, map[])
  {
    NamesDecide(v, nodes, tries);
    KeptDecides(v, nodes, tries);
  }

  lemma KeptDecides(v: Volume, nodes: Nodes, tries: seq<Try>)
    requires Closed(nodes) && AllPossible(v, nodes, tries) && MadeApart(v, tries, map[])
    ensures Clear(v, tries, map[]) <==> PlacesKept(v, tries, map[])
  {
    StaysClosed(v, nodes, tries);
    assert AfterTries(v, nodes, tries) + map[] == AfterTries(v, nodes, tries);
    ClearIsKept(v, nodes, tries, map[]);
  }

  lemma BackIsBeside(v: Volume, nodes: Nodes, t: Try, more: Nodes)
    requires Closed(nodes) && Possible(v, nodes, t) && Beside(AfterTry(v, nodes, t), more)
    requires MovedBy(t) ==> v.at(t.action.path) !in more
    ensures Beside(nodes, Back(v, t, more))
  {
    if MovedBy(t) { UndoOne(v, nodes, t, more); } else { MadeBeside(nodes, t.acted.made, more); }
  }

  lemma BackStays(v: Volume, nodes: Nodes, t: Try, more: Nodes)
    requires Closed(nodes) && Possible(v, nodes, t) && Beside(AfterTry(v, nodes, t), more)
    requires MovedBy(t) ==> v.at(t.action.path) !in more
    requires MovedBy(t) ==> forall p <- more :: !(v.at(t.acted.receipt.value.to) <= p)
    ensures Back(v, t, more) == t.acted.made + more && Beside(nodes, t.acted.made + more)
  {
    BackIsBeside(v, nodes, t, more);
    if MovedBy(t) {
      CarriedStays(v, nodes, t, more, v.at(t.action.path), v.at(t.acted.receipt.value.to), AfterTry(v, nodes, t));
    }
  }

  lemma CarriedStays(v: Volume, nodes: Nodes, t: Try, more: Nodes, src: Place, dst: Place, after: Nodes)
    requires Closed(nodes) && Possible(v, nodes, t) && MovedBy(t) && after == AfterTry(v, nodes, t)
    requires src == v.at(t.action.path) && dst == v.at(t.acted.receipt.value.to)
    requires Beside(after, more) && src !in more && forall p <- more :: !(dst <= p)
    ensures Renamed(more, dst, src) == more
  {
    MakesCloses(nodes, t.acted.made);
    TryRenames(v, nodes, t);
    StaysBeside(nodes + t.acted.made, src, dst, after, more);
  }

  lemma KeptBefore(v: Volume, tries: seq<Try>, more: Nodes)
    requires tries != [] && MadeApart(v, tries, more)
    ensures var n := |tries| - 1; var t := tries[n];
      && MadeApart(v, tries[..n], t.acted.made + more)
      && (PlacesKept(v, tries, more) <==>
            (MovedBy(t) ==> v.at(t.action.path) !in more) && PlacesKept(v, tries[..n], t.acted.made + more))
  {
  }

  // ---- runs that undo does not give back ----

  function MoveOf(num: nat, path: string, to: string, ino: nat): Try {
    StageOf(num, path, to, Finder, ino, map[])
  }

  function StageOf(num: nat, path: string, to: string, how: Method, ino: nat, made: Nodes): Try {
    Try(num, Action("rule", path, TrashKind, "", "", path, 0, false, false, []), 0, 0,
        Acted(Some(Receipt(path, to, how, ino)), None, true, made))
  }

  /** A volume with two levels that tells case apart. */
  function TwoLevels(fold: string -> string): Volume {
    Volume(s => if s == "dir/x" then ["dir", "x"] else [s], fold)
  }

  lemma MoveIsPossible(v: Volume, nodes: Nodes, num: nat, path: string, to: string, ino: nat)
    requires CanRename(nodes, v.at(path), v.at(to)) && ino in {0, nodes[v.at(path)]}
    ensures Possible(v, nodes, MoveOf(num, path, to, ino))
    ensures IsRenamed(nodes, v.at(path), v.at(to), AfterTry(v, nodes, MoveOf(num, path, to, ino)))
  {
    assert nodes + map[] == nodes;
    StageIsPossible(v, nodes, num, path, to, Finder, ino, map[]);
  }

  lemma StageIsPossible(v: Volume, nodes: Nodes, num: nat, path: string, to: string, how: Method, ino: nat, made: Nodes)
    requires v.at(path) in nodes && ino in {0, nodes[v.at(path)]} && how != Export && (how == Finder ==> made == map[])
    requires Makes(nodes, made) && CanRename(nodes + made, v.at(path), v.at(to))
    ensures var t := StageOf(num, path, to, how, ino, made);
      Possible(v, nodes, t) && IsRenamed(nodes + made, v.at(path), v.at(to), AfterTry(v, nodes, t))
  {
    var l := Landing(to, how, ino != 0);
    assert MoveWent(v, nodes, StageOf(num, path, to, how, ino, made), l);
    RenamedIs(nodes + made, v.at(path), v.at(to));
  }

  lemma TwoTries(v: Volume, nodes: Nodes, s: Try, t: Try)
    ensures AllPossible(v, nodes, [s, t]) <==> Possible(v, nodes, s) && Possible(v, AfterTry(v, nodes, s), t)
    ensures AfterTries(v, nodes, [s, t]) == AfterTry(v, AfterTry(v, nodes, s), t)
  {
    assert [s, t][..1] == [s] && [s][..0] == [];
    assert AfterTries(v, nodes, [s]) == AfterTry(v, nodes, s);
    assert AllPossible(v, nodes, [s]) <==> Possible(v, nodes, s);
  }

  /** A run the executor may make, on a disk as disks are. */
  ghost predicate Ordinary(v: Volume, nodes: Nodes, tries: seq<Try>) {
    v.Valid() && Closed(nodes) && OneEach(nodes) && AllPossible(v, nodes, tries) && Ordered(tries)
  }

  lemma NotGivenBack(v: Volume, nodes: Nodes, tries: seq<Try>, j: nat, r: Run)
    requires Ordinary(v, nodes, tries) && ReadBack([], "run", tries, v.fold, r)
    requires j < |tries| && MovedBy(tries[j]) && (TakenAgain(tries, v.fold, j) || !InPlace(v, nodes, tries, j))
    ensures Missing(r, v, AfterTries(v, nodes, tries)) != [] && !GivenBack(v, nodes, "run", tries, r)
  {
    UndoRoundTrip(v, nodes, [], "run", tries, r);
  }

  const ABC: Nodes := map[[] := 1, ["a"] := 2, ["b"] := 3]

  function CaseAlone(): seq<Try> { [MoveOf(1, "a", "Cache", 0), MoveOf(2, "b", "cache", 3)] }

  /** A move whose identity could not be read, and a later copy whose name differs from
      its copy's in case alone, where case tells names apart: the first copy is there,
      and is reported gone. */
  lemma CaseAloneIsLost(fold: string -> string, r: Run)
    requires fold("Cache") == fold("cache") && ReadBack([], "run", CaseAlone(), fold, r)
    ensures var v, tries := TwoLevels(fold), CaseAlone();
      && Ordinary(v, ABC, tries) && CopiesStay(v, tries)
      && !Gone(v, AfterTries(v, ABC, tries), tries[0].acted.receipt.value)
      && Missing(r, v, AfterTries(v, ABC, tries)) != [] && !GivenBack(v, ABC, "run", tries, r)
  {
    var v, tries := TwoLevels(fold), CaseAlone();
    CaseAlonePossible(v, tries);
    assert SameName(tries[0].acted.receipt.value, tries[1].acted.receipt.value, fold);
    assert TakenAgain(tries, v.fold, 0);
    NotGivenBack(v, ABC, tries, 0, r);
  }

  lemma AbcIsDisk()
    ensures Closed(ABC) && OneEach(ABC) && forall p: Place | p != [] && p[0] != "a" && p[0] != "b" :: Free(ABC, p)
  {
    assert ["a"][..0] == [] && ["b"][..0] == [];
    forall p: Place, q | p != [] && p[0] != "a" && p[0] != "b" && q in ABC ensures !(p <= q) { SameHead(p, q); }
  }

  lemma SameHead(p: Place, q: Place)
    requires p != []
    ensures p <= q ==> q != [] && p[0] == q[0]
  {
  }

  lemma TwoLevelsValid(fold: string -> string)
    ensures TwoLevels(fold).Valid()
  {
    var v := TwoLevels(fold);
    forall a, b | v.at(a) == v.at(b) ensures a == b {
      assert a == "dir/x" <==> |v.at(a)| == 2;
      assert b == "dir/x" <==> |v.at(b)| == 2;
    }
  }

  lemma CaseAlonePossible(v: Volume, tries: seq<Try>)
    requires v == TwoLevels(v.fold) && tries == CaseAlone()
    ensures Ordinary(v, ABC, tries) && CopiesStay(v, tries)
      && !Gone(v, AfterTries(v, ABC, tries), tries[0].acted.receipt.value)
  {
    AbcIsDisk();
    TwoLevelsValid(v.fold);
    TwoMoves(v, ABC, "a", "Cache", "b", "cache", 0, 3);
  }

  lemma OrdinaryTwo(v: Volume, nodes: Nodes, s: Try, t: Try)
    requires v.Valid() && Closed(nodes) && OneEach(nodes) && s.num < t.num
    requires Possible(v, nodes, s) && Possible(v, AfterTry(v, nodes, s), t)
    ensures Ordinary(v, nodes, [s, t])
  {
    TwoTries(v, nodes, s, t);
  }

  /** Two moves to free names right under the root, the second of something else. */
  lemma TwoMoves(v: Volume, nodes: Nodes, a: string, to: string, b: string, next: string, i: nat, k: nat)
    requires v.at(a) == [a] && v.at(to) == [to] && v.at(b) == [b] && v.at(next) == [next]
    requires [a] in nodes && [b] in nodes && [] in nodes && Free(nodes, [to]) && Free(nodes, [next])
    requires a != b && to != next && to !in {a, b} && next !in {a, b}
    requires i in {0, nodes[[a]]} && k in {0, nodes[[b]]}
    requires v.Valid() && Closed(nodes) && OneEach(nodes)
    ensures var tries := [MoveOf(1, a, to, i), MoveOf(2, b, next, k)];
      Ordinary(v, nodes, tries) && CopiesStay(v, tries)
        && !Gone(v, AfterTries(v, nodes, tries), tries[0].acted.receipt.value)
  {
    var s, t := MoveOf(1, a, to, i), MoveOf(2, b, next, k);
    OnePlaces(a, b, to, next);
    SecondMove(v, nodes, a, to, b, next, i, k);
    OrdinaryTwo(v, nodes, s, t);
    TwoTries(v, nodes, s, t);
    TwoStay(v, s, t);
  }

  lemma TwoStay(v: Volume, s: Try, t: Try)
    requires MovedBy(s) && !(v.at(t.action.path) <= v.at(s.acted.receipt.value.to))
    ensures CopiesStay(v, [s, t])
  {
  }

  lemma SecondMove(v: Volume, nodes: Nodes, a: string, to: string, b: string, next: string, i: nat, k: nat)
    requires v.at(a) == [a] && v.at(to) == [to] && v.at(b) == [b] && v.at(next) == [next]
    requires [a] in nodes && [b] in nodes && [] in nodes && Free(nodes, [to]) && Free(nodes, [next])
    requires a != b && to != next && to !in {a, b} && next !in {a, b}
    requires i in {0, nodes[[a]]} && k in {0, nodes[[b]]}
    ensures var s, t := MoveOf(1, a, to, i), MoveOf(2, b, next, k);
      && Possible(v, nodes, s) && Possible(v, AfterTry(v, nodes, s), t)
      && !Gone(v, AfterTry(v, AfterTry(v, nodes, s), t), s.acted.receipt.value)
  {
    assert [to][..0] == [] && [next][..0] == [] && [a] + [to][1..] == [a];
    OnePlaces(a, b, to, next);
    MoveIsPossible(v, nodes, 1, a, to, i);
    var one := AfterTry(v, nodes, MoveOf(1, a, to, i));
    assert Reaches(nodes, [a], [to], [b]) && Reaches(nodes, [a], [to], []) && Reaches(nodes, [a], [to], [to]);
    FreeAfter(nodes, [a], [to], one, [next]);
    MoveIsPossible(v, one, 2, b, next, k);
    assert Reaches(one, [b], [next], [to]);
  }

  lemma OnePlaces(a: string, b: string, to: string, next: string)
    requires a != b && to != next && to !in {a, b} && next !in {a, b}
    ensures !([a] <= [to]) && !([to] <= [b]) && !([a] <= [b]) && !([to] <= [next]) && !([next] <= [to])
      && !([b] <= [next]) && !([b] <= [to])
  {
    SameHead([a], [to]);
    SameHead([to], [b]);
    SameHead([a], [b]);
    SameHead([to], [next]);
    SameHead([b], [next]);
    SameHead([b], [to]);
  }

  lemma FreeAfter(nodes: Nodes, src: Place, dst: Place, after: Nodes, p: Place)
    requires IsRenamed(nodes, src, dst, after) && Free(nodes, p) && !(dst <= p) && !(p <= dst)
    ensures Free(after, p)
  {
    forall q <- after ensures !(p <= q) {
      assert Reaches(nodes, src, dst, q);
      if p <= q && dst <= q { Nested(p, dst, q); }
    }
  }

  const TRASHED: Nodes := map[[] := 1, ["x"] := 2, ["dir"] := 3]

  function FolderMoved(): seq<Try> { [MoveOf(1, "x", "dir/x", 2), MoveOf(2, "dir", "bin", 3)] }

  /** A later action that moves the folder an earlier copy is in: the copies are judged
      before anything is restored, so the first one is reported gone, though restoring
      both, last first, would give the disk back. */
  lemma FolderMovedIsLost(fold: string -> string, r: Run)
    requires ReadBack([], "run", FolderMoved(), fold, r)
    ensures var v, tries := TwoLevels(fold), FolderMoved();
      && Ordinary(v, TRASHED, tries)
      && UndoAll(v, AfterTries(v, TRASHED, tries), MovesOf("run", tries)) == TRASHED
      && Missing(r, v, AfterTries(v, TRASHED, tries)) != [] && !GivenBack(v, TRASHED, "run", tries, r)
  {
    var v, tries := TwoLevels(fold), FolderMoved();
    FolderMovedPossible(v, tries);
    FolderMovedMade(tries);
    OrdinaryBack(v, TRASHED, tries);
    NotGivenBack(v, TRASHED, tries, 0, r);
  }

  lemma FolderMovedMade(tries: seq<Try>)
    requires tries == FolderMoved()
    ensures forall t <- tries :: t.acted.made == map[]
  {
  }

  lemma OrdinaryBack(v: Volume, nodes: Nodes, tries: seq<Try>)
    requires Ordinary(v, nodes, tries) && forall t <- tries :: t.acted.made == map[]
    ensures UndoAll(v, AfterTries(v, nodes, tries), MovesOf("run", tries)) == nodes
  {
    NothingMadeBack(v, nodes, "run", tries);
  }

  lemma {:induction false} NothingMade(v: Volume, tries: seq<Try>, n: nat)
    requires n <= |tries| && forall t <- tries :: t.acted.made == map[]
    ensures Clear(v, tries[..n], map[]) && Left(v, tries[..n], map[]) == map[]
  {
    if n > 0 {
      assert tries[..n][..n - 1] == tries[..n - 1];
      var t := tries[n - 1];
      if MovedBy(t) { RenamedIs(map[], v.at(t.acted.receipt.value.to), v.at(t.action.path)); }
      NothingMade(v, tries, n - 1);
    }
  }

  lemma NothingMadeBack(v: Volume, nodes: Nodes, run: string, tries: seq<Try>)
    requires Closed(nodes) && AllPossible(v, nodes, tries) && forall t <- tries :: t.acted.made == map[]
    ensures UndoAll(v, AfterTries(v, nodes, tries), MovesOf(run, tries)) == nodes
  {
    assert tries[..|tries|] == tries;
    NothingMade(v, tries, |tries|);
    AllUndoneOrNot(v, nodes, run, tries);
    assert nodes + map[] == nodes;
  }

  lemma TrashedIsDisk()
    ensures Closed(TRASHED) && OneEach(TRASHED)
  {
    assert ["x"][..0] == [] && ["dir"][..0] == [];
  }

  lemma TrashedFree()
    ensures Free(TRASHED, ["dir", "x"]) && Free(TRASHED, ["bin"])
  {
    forall q <- TRASHED ensures !(["bin"] <= q) { SameHead(["bin"], q); }
    forall q <- TRASHED ensures !(["dir", "x"] <= q) { assert |q| < 2; }
  }

  lemma FolderMovedPossible(v: Volume, tries: seq<Try>)
    requires v == TwoLevels(v.fold) && tries == FolderMoved()
    ensures Ordinary(v, TRASHED, tries) && MovedBy(tries[0]) && !InPlace(v, TRASHED, tries, 0)
  {
    var s, t := MoveOf(1, "x", "dir/x", 2), MoveOf(2, "dir", "bin", 3);
    TrashedIsDisk();
    BothPossible(v, s, t);
    TwoLevelsValid(v.fold);
    OrdinaryTwo(v, TRASHED, s, t);
    assert tries == [s, t];
    TrailMoved(v, tries);
  }

  lemma BothPossible(v: Volume, s: Try, t: Try)
    requires v == TwoLevels(v.fold) && s == MoveOf(1, "x", "dir/x", 2) && t == MoveOf(2, "dir", "bin", 3)
    ensures Possible(v, TRASHED, s) && Possible(v, AfterTry(v, TRASHED, s), t)
  {
    TrashedFree();
    var src, dst := ["x"], ["dir", "x"];
    assert v.at("x") == src && v.at("dir/x") == dst && v.at("dir") == ["dir"] && v.at("bin") == ["bin"];
    assert dst[..1] == ["dir"] && ["bin"][..0] == [];
    MoveIsPossible(v, TRASHED, 1, "x", "dir/x", 2);
    var one := AfterTry(v, TRASHED, s);
    assert Reaches(TRASHED, src, dst, ["dir"]) && Reaches(TRASHED, src, dst, []);
    assert Was(["dir"], src, dst) == ["dir"];
    FreeAfter(TRASHED, src, dst, one, ["bin"]);
    MoveIsPossible(v, one, 2, "dir", "bin", 3);
  }

  lemma TrailMoved(v: Volume, tries: seq<Try>)
    requires v == TwoLevels(v.fold) && tries == FolderMoved() && Ordinary(v, TRASHED, tries)
    ensures MovedBy(tries[0]) && !InPlace(v, TRASHED, tries, 0)
  {
    assert Trail(v, tries, 0, 1) == ["dir", "x"];
    assert Trail(v, tries, 0, 2)[0] == "bin";
    TrailDecides(v, TRASHED, tries, 0);
  }

  function StagedAgain(): seq<Try> {
    [MoveOf(1, "dir", "bin", 3), StageOf(2, "x", "dir/x", Staging, 2, map[["dir"] := 4])]
  }

  /** A later action that makes a staging folder anew where an earlier one moved the
      folder away: both copies are there, and the first move's restore is refused. */
  lemma StagedAgainIsLost(fold: string -> string, r: Run)
    requires ReadBack([], "run", StagedAgain(), fold, r)
    ensures var v, tries := TwoLevels(fold), StagedAgain();
      && Ordinary(v, TRASHED, tries) && CopiesStay(v, tries)
      && Missing(r, v, AfterTries(v, TRASHED, tries)) == [] && !GivenBack(v, TRASHED, "run", tries, r)
  {
    var v, tries := TwoLevels(fold), StagedAgain();
    StagedAgainPossible(v, tries);
    NamesDecide(v, TRASHED, tries);
    StagedInTheWay(v, tries);
    UndoRoundTrip(v, TRASHED, [], "run", tries, r);
  }

  lemma StagedAgainPossible(v: Volume, tries: seq<Try>)
    requires v == TwoLevels(v.fold) && tries == StagedAgain()
    ensures Ordinary(v, TRASHED, tries) && CopiesStay(v, tries)
  {
    var s, t := MoveOf(1, "dir", "bin", 3), StageOf(2, "x", "dir/x", Staging, 2, map[["dir"] := 4]);
    TrashedIsDisk();
    TwoLevelsValid(v.fold);
    MovedThenStaged(v, s, t);
    OrdinaryTwo(v, TRASHED, s, t);
    assert tries == [s, t];
    SameHead(["x"], ["bin"]);
    TwoStay(v, s, t);
  }

  lemma MovedThenStaged(v: Volume, s: Try, t: Try)
    requires v == TwoLevels(v.fold) && s == MoveOf(1, "dir", "bin", 3)
    requires t == StageOf(2, "x", "dir/x", Staging, 2, map[["dir"] := 4])
    ensures Possible(v, TRASHED, s) && Possible(v, AfterTry(v, TRASHED, s), t)
  {
    TrashedFree();
    var src, dst := ["dir"], ["bin"];
    assert v.at("dir") == src && v.at("bin") == dst && dst[..0] == [];
    SameHead(src, dst);
    MoveIsPossible(v, TRASHED, 1, "dir", "bin", 3);
    var one := AfterTry(v, TRASHED, s);
    AfterDirMoved(one);
    assert v.at("x") == ["x"] && v.at("dir/x") == ["dir", "x"];
    StagePossible(one);
    StageIsPossible(v, one, 2, "x", "dir/x", Staging, 2, map[["dir"] := 4]);
  }

  lemma AfterDirMoved(one: Nodes)
    requires IsRenamed(TRASHED, ["dir"], ["bin"], one)
    ensures one == map[[] := 1, ["x"] := 2, ["bin"] := 3]
  {
    var src, dst := ["dir"], ["bin"];
    forall q ensures Reaches(TRASHED, src, dst, q) <==> q == [] || q == ["x"] || q == ["bin"] {
      if dst <= q {
        var rest := q[|dst|..];
        assert q == dst + rest && (src + rest)[0] == "dir" && |src + rest| == 1 + |rest|;
        assert rest == [] ==> src + rest == src && q == dst;
        assert src + rest in TRASHED ==> |rest| == 0;
      } else {
        assert q in TRASHED ==> (src <= q <==> q == src);
        SameHead(dst, ["x"]);
      }
    }
    assert Was(["bin"], src, dst) == ["dir"] && Was(["x"], src, dst) == ["x"] && Was([], src, dst) == [];
  }

  lemma StagePossible(one: Nodes)
    requires one == map[[] := 1, ["x"] := 2, ["bin"] := 3]
    ensures var made: Nodes := map[["dir"] := 4]; Makes(one, made) && CanRename(one + made, ["x"], ["dir", "x"])
  {
    var made: Nodes := map[["dir"] := 4];
    assert ["dir"][..0] == [] && ["dir", "x"][..1] == ["dir"];
    forall q <- one + made ensures !(["dir", "x"] <= q) { assert |q| < 2; }
    SameHead(["x"], ["dir", "x"]);
  }

  lemma StagedInTheWay(v: Volume, tries: seq<Try>)
    requires v == TwoLevels(v.fold) && tries == StagedAgain()
    ensures !Clear(v, tries, map[])
  {
    var s, t := tries[0], tries[1];
    assert tries[..1] == [s] && v.at("dir") == ["dir"];
    assert ["dir"] in Back(v, t, map[]) by {
      RenamedNothing(map[], v.at("dir/x"), v.at("x"));
      assert ["dir"] in t.acted.made;
    }
    assert !Clear(v, [s], Back(v, t, map[]));
  }

  // ---- many runs, and names taken again ----

  /** What sits at a place: an item, and the journal line of the action that put it
      there, if one did. */
  datatype Held = Held(item: nat, mover: Option<nat>)

  /** moved: the item each journal line moved. */
  datatype World = World(at: map<Place, Held>, es: seq<Entry>, moved: seq<nat>)

  datatype Happens =
    | Journal(e: Entry)
    | Move(e: Entry, item: nat)
    | Leaves(p: Place)
    | Appears(p: Place, item: nat)

  /** Lines are journaled; an action moves an item to a name that is free, and
      journals it; copies leave, however they do; anything else may appear. */
  predicate CanHappen(v: Volume, w: World, h: Happens) {
    match h
    case Journal(e) => !Moved(e)
    case Move(e, item) => Moved(e) && item > 0 && e.receipt.value.ino in {0, item} && v.at(e.receipt.value.to) !in w.at
    case Leaves(p) => p in w.at
    case Appears(p, item) => p !in w.at && item > 0
  }

  function Next(v: Volume, w: World, h: Happens): World {
    match h
    case Journal(e) => w.(es := w.es + [e], moved := w.moved + [0])
    case Move(e, item) =>
      World(if e.receipt.Some? then w.at[v.at(e.receipt.value.to) := Held(item, Some(|w.es|))] else w.at, w.es + [e],
        w.moved + [item])
    case Leaves(p) => w.(at := w.at - {p})
    case Appears(p, item) => w.(at := w.at[p := Held(item, None)])
  }

  /** What an action put somewhere is the last thing any action put there. */
  ghost predicate WorldInv(v: Volume, w: World) {
    && |w.moved| == |w.es|
    && (forall i | 0 <= i < |w.es| && Moved(w.es[i]) :: w.es[i].receipt.value.ino in {0, w.moved[i]})
    && forall p <- w.at :: w.at[p].mover.Some? ==>
         var j := w.at[p].mover.value;
         && j < |w.es| && Moved(w.es[j]) && v.at(w.es[j].receipt.value.to) == p && w.moved[j] == w.at[p].item
         && forall i | 0 <= i < |w.es| && Moved(w.es[i]) && v.at(w.es[i].receipt.value.to) == p :: i <= j
  }

  lemma HappeningKeeps(v: Volume, w: World, h: Happens)
    requires WorldInv(v, w) && CanHappen(v, w, h)
    ensures WorldInv(v, Next(v, w, h))
  {
  }

  ghost predicate Happened(v: Volume, worlds: seq<World>, hs: seq<Happens>) {
    && |worlds| == |hs| + 1 && worlds[0] == World(map[], [], [])
    && forall i | 0 <= i < |hs| :: CanHappen(v, worlds[i], hs[i]) && worlds[i + 1] == Next(v, worlds[i], hs[i])
  }

  lemma {:induction false} WorldKeeps(v: Volume, worlds: seq<World>, hs: seq<Happens>, n: nat)
    requires Happened(v, worlds, hs) && n < |worlds|
    ensures WorldInv(v, worlds[n])
  {
    if n > 0 {
      WorldKeeps(v, worlds, hs, n - 1);
      HappeningKeeps(v, worlds[n - 1], hs[n - 1]);
    }
  }

  /** What is where move i's copy went: its item, or one no action put there. */
  ghost predicate Own(v: Volume, w: World, i: nat) {
    && i < |w.es| && |w.moved| == |w.es| && Moved(w.es[i])
    && var p := v.at(w.es[i].receipt.value.to);
       p in w.at && (w.at[p].mover == Some(i) || w.at[p].mover.None? || w.at[p].item == w.moved[i])
  }

  /** Whatever happened, what lies where a move neither taken again nor gone went is
      the item that move put there, or one that no action put there: never another
      action's. */
  lemma NeverAnothersItem(v: Volume, worlds: seq<World>, hs: seq<Happens>, n: nat, i: nat)
    requires v.Valid() && Happened(v, worlds, hs) && n < |worlds|
    requires i < |worlds[n].es| && Moved(worlds[n].es[i]) && worlds[n].es[i].receipt.value.Restorable()
    requires !Reused(worlds[n].es, i, v.fold) && !Gone(v, Contents(worlds[n]), worlds[n].es[i].receipt.value)
    ensures Own(v, worlds[n], i)
  {
    var w := worlds[n];
    WorldKeeps(v, worlds, hs, n);
    var r := w.es[i].receipt.value;
    var held := w.at[v.at(r.to)];
    assert forall j | i < j < |w.es| && Moved(w.es[j]) :: !SameName(r, w.es[j].receipt.value, v.fold);
    assert held.mover.Some? ==>
      i <= held.mover.value < |w.es| && v.fold(w.es[held.mover.value].receipt.value.to) == v.fold(r.to);
  }

  /** The disk as undo sees it. */
  function Contents(w: World): Nodes {
    map p | p in w.at :: w.at[p].item
  }

  lemma {:induction false} OfRunFrom(es: seq<Entry>, id: string, e: Entry) returns (i: nat)
    requires e in OfRun(es, id)
    ensures i < |es| && es[i] == e && e.run == id
  {
    var n := |es| - 1;
    if es[n] == e && e.run == id { i := n; } else { i := OfRunFrom(es[..n], id, e); }
  }

  lemma {:induction false} PresentIsThere(r: Run, gone: Receipt -> bool, es: seq<Entry>, e: Entry)
    requires e in Those(r, gone, es, true)
    ensures e in es && There(r, gone, e)
  {
    var n := |es| - 1;
    if e in Those(r, gone, es[..n], true) { PresentIsThere(r, gone, es[..n], e); }
  }

  /** What undo attempts, for a run read from the whole journal, is never another
      action's item. */
  lemma UndoTakesItsOwn(v: Volume, worlds: seq<World>, hs: seq<Happens>, n: nat, r: Run, e: Entry) returns (i: nat)
    requires v.Valid() && Happened(v, worlds, hs) && n < |worlds|
    requires IsRunOf(worlds[n].es, |worlds[n].es|, v.fold, r) && e in Present(r, v, Contents(worlds[n]))
    ensures i < |worlds[n].es| && worlds[n].es[i] == e && Own(v, worlds[n], i)
  {
    var es := worlds[n].es;
    assert es[..|es|] == es;
    PresentIsThere(r, GoneNow(v, Contents(worlds[n])), PendingOf(r.entries, Undone(r.entries)), e);
    PendingMoved(r.entries, Undone(r.entries), e);
    i := OfRunFrom(es, r.id, e);
    if Reused(es, i, v.fold) { ReusedIn(es, i, v.fold, r); }
    NeverAnothersItem(v, worlds, hs, n, i);
  }

  lemma ReusedIn(es: seq<Entry>, i: nat, fold: string -> string, r: Run)
    requires i < |es| && Reused(es, i, fold) && es[i].run == r.id && r.reused == ReusedOf(es, |es|, r.id, fold)
    ensures es[i].num in r.reused
  {
  }
}
