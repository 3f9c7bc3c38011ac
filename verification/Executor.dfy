// One run of a plan, journaled line by line, and its undo:
// internal/executor/executor.go.
module Executor {
  import opened Catalog
  import opened Disk
  import opened Journal

  datatype Usage = Usage(files: int, bytes: int)

  /** A pre-action's answer; a hook that is not registered refuses the action. The
      one hook there is exports a volume, and names its tarball when there is one. */
  datatype Hook = Unregistered | Hooked(volume: string, tarball: Option<string>, ok: bool)

  /** What the world answers around one action: whether the context is done or a
      stop was asked before it, which journal lines go through, and what the hook,
      the mover, the measures and the command come to. made: the staging folders that
      are made on the way, and an export's tarball. */
  datatype Outcome = Outcome(canceled: bool, stop: bool, startLogged: bool, endLogged: bool, started: int, ended: int,
                             hook: Hook, landing: Option<Landing>, made: Nodes, registered: bool, safeCache: bool,
                             before: Option<Usage>, ran: bool, after: Option<Usage>)

  /** One action's receipt, measure and success, and what it made on the disk. */
  datatype Acted = Acted(receipt: Option<Receipt>, pruned: Option<Pruned>, ok: bool, made: Nodes)

  function Max(a: int, b: int): int { if a < b then b else a }

  /** measuredRun: without a measure before, the command is not run; without one after,
      the action fails. */
  function MeasuredRun(o: Outcome): (r: (Option<Pruned>, bool))
    ensures r.0.Some? ==> r.0.value.files >= 0 && r.0.value.bytes >= 0
    ensures r.1 ==> r.0.Some? && o.ran
  {
    if o.before.None? || o.after.None? then (None, false)
    else (Some(Pruned(Max(o.before.value.files - o.after.value.files, 0),
      Max(o.before.value.bytes - o.after.value.bytes, 0))), o.ran)
  }

  function RunHook(a: Action, o: Outcome): (Option<Receipt>, bool) {
    if a.preAction == "" then (None, true)
    else if o.hook.Unregistered? then (None, false)
    else (if o.hook.tarball.Some? then Some(Receipt(o.hook.volume, o.hook.tarball.value, Export, 0)) else None,
      o.hook.ok)
  }

  /** What the action makes: the mover when it falls back to staging, the export hook. */
  function Made(v: Volume, nodes: Nodes, a: Action, o: Outcome): Nodes {
    if !Makes(nodes, o.made) then map[]
    else
      match a.kind
      case TrashKind => if RunHook(a, o).1 && Stages(v, nodes, a.path, o.landing) then o.made else map[]
      case NativeKind => if a.preAction != "" && o.hook.Hooked? then o.made else map[]
      case PruneKind => map[]
  }

  function Acts(v: Volume, nodes: Nodes, a: Action, o: Outcome): Acted {
    var made := Made(v, nodes, a, o);
    var (receipt, hookOk) := RunHook(a, o);
    match a.kind
    case TrashKind =>
      if hookOk && Moves(v, nodes, made, a.path, o.landing)
      then Acted(Some(ReceiptOf(v, nodes, a.path, o.landing.value)), None, true, made)
      else Acted(receipt, None, false, made)
    case NativeKind =>
      if !hookOk then Acted(receipt, None, false, made)
      else if a.measure == "" then Acted(receipt, None, o.ran, made)
      else if !o.registered then Acted(receipt, None, false, made)
      else var (pruned, ok) := MeasuredRun(o); Acted(receipt, pruned, ok, made)
    case PruneKind =>
      if !o.safeCache then Acted(None, None, false, made)
      else var (pruned, ok) := MeasuredRun(o); Acted(None, pruned, ok, made)
  }

  /** An action that was attempted, its number in the plan from one, and what came of it. */
  datatype Try = Try(num: nat, action: Action, started: int, ended: int, acted: Acted)

  function StartLine(run: string, t: Try): Entry {
    Entry(t.started, run, t.num, Start, t.action.ruleID, t.action.itemKey, Some(t.action.kind), t.action.path,
      t.action.bytes, None, None, "")
  }

  function EndLine(run: string, t: Try): Entry {
    Entry(t.ended, run, t.num, if t.acted.ok then Done else Fail, t.action.ruleID, "", None, "", 0,
          t.acted.receipt, t.acted.pruned, if t.acted.ok then "" else "failed")
  }

  function Lines(run: string, tries: seq<Try>): (es: seq<Entry>)
    ensures |es| == 2 * |tries|
  {
    if tries == [] then [] else
      var t := tries[|tries| - 1];
      Lines(run, tries[..|tries| - 1]) + [StartLine(run, t), EndLine(run, t)]
  }

  lemma {:induction false} LinesOfRun(run: string, tries: seq<Try>)
    ensures forall i | 0 <= i < |Lines(run, tries)| :: Lines(run, tries)[i].run == run
  {
    if tries != [] { LinesOfRun(run, tries[..|tries| - 1]); }
  }

  // ---- the run's own totals ----

  function Freed(t: Try): int {
    if !t.acted.ok then 0 else if t.acted.pruned.Some? then t.acted.pruned.value.bytes else t.action.bytes
  }

  predicate LandedBy(t: Try, kind: Kind, how: Method) {
    t.acted.ok && t.action.kind == kind && t.acted.receipt.Some? && t.acted.receipt.value.how == how
  }

  function Trashed(t: Try): int { if LandedBy(t, TrashKind, Finder) then t.action.bytes else 0 }

  function Staged(t: Try): int { if LandedBy(t, TrashKind, Staging) then t.action.bytes else 0 }

  function Exported(t: Try): int { if LandedBy(t, NativeKind, Export) then t.action.bytes else 0 }

  function PrunedBytes(t: Try): int { if t.acted.pruned.Some? then t.acted.pruned.value.bytes else 0 }

  function PrunedFiles(t: Try): int { if t.acted.pruned.Some? then t.acted.pruned.value.files else 0 }

  function FailedBytes(t: Try): int { if t.acted.ok then 0 else PrunedBytes(t) }

  function FailedFiles(t: Try): int { if t.acted.ok then 0 else PrunedFiles(t) }

  function Succeeded(t: Try): int { if t.acted.ok then 1 else 0 }

  function Total(tries: seq<Try>, f: Try -> int): int {
    if tries == [] then 0 else Total(tries[..|tries| - 1], f) + f(tries[|tries| - 1])
  }

  /** The rules whose attempts failed, in order. */
  function Failures(tries: seq<Try>): seq<string> {
    if tries == [] then []
    else
      var t := tries[|tries| - 1];
      Failures(tries[..|tries| - 1]) + if t.acted.ok then [] else [t.action.ruleID]
  }

  datatype Result = Result(done: int, failed: int, bytes: int, trashBytes: int, stagedBytes: int, exportedBytes: int,
                           failures: seq<string>, skipped: seq<Action>, pruned: Pruned, failedPruned: Pruned,
                             stopped: bool)

  const EMPTY := Result(0, 0, 0, 0, 0, 0, [], [], Pruned(0, 0), Pruned(0, 0), false)

  ghost predicate Tallied(res: Result, tries: seq<Try>) {
    && res.done == Total(tries, Succeeded) && res.failed == |tries| - res.done && res.failures == Failures(tries)
    && res.bytes == Total(tries, Freed)
    && res.trashBytes == Total(tries, Trashed) && res.stagedBytes == Total(tries, Staged)
    && res.exportedBytes == Total(tries, Exported)
    && res.pruned == Pruned(Total(tries, PrunedFiles), Total(tries, PrunedBytes))
    && res.failedPruned == Pruned(Total(tries, FailedFiles), Total(tries, FailedBytes))
  }

  function Plus(p: Pruned, q: Pruned): Pruned { Pruned(p.files + q.files, p.bytes + q.bytes) }

  /** The source's own counting of one finished action. */
  method Count(res: Result, t: Try) returns (next: Result)
    ensures forall tries :: Tallied(res, tries) ==> Tallied(next, tries + [t])
    ensures next.skipped == res.skipped && next.stopped == res.stopped
  {
    next := res;
    var a, acted := t.action, t.acted;
    var freed := a.bytes;
    if acted.pruned.Some? {
      freed := acted.pruned.value.bytes;
      next := next.(pruned := Plus(next.pruned, acted.pruned.value));
    }
    if !acted.ok {
      next := next.(failed := next.failed + 1, failures := next.failures + [a.ruleID]);
      if acted.pruned.Some? {
        next := next.(failedPruned := Plus(next.failedPruned, acted.pruned.value));
      }
    } else {
      next := next.(done := next.done + 1, bytes := next.bytes + freed);
      if acted.receipt.Some? {
        match (a.kind, acted.receipt.value.how)
        case (TrashKind, Finder) => next := next.(trashBytes := next.trashBytes + a.bytes);
        case (TrashKind, Staging) => next := next.(stagedBytes := next.stagedBytes + a.bytes);
        case (NativeKind, Export) => next := next.(exportedBytes := next.exportedBytes + a.bytes);
        case _ =>
      }
    }
    forall tries | Tallied(res, tries) ensures Tallied(next, tries + [t]) {
      assert (tries + [t])[..|tries|] == tries;
    }
  }

  /** What a run with no attempt comes to, and what one attempt more adds. */
  lemma TallyCounts(res: Result, next: Result, tries: seq<Try>, t: Try)
    requires Tallied(res, tries) && Tallied(next, tries + [t])
    ensures tries == [] ==> res == EMPTY.(skipped := res.skipped, stopped := res.stopped)
    ensures var a, acted, ok := t.action, t.acted, t.acted.ok;
      var freed := if acted.pruned.None? then a.bytes else acted.pruned.value.bytes;
      && next.done - res.done == (if ok then 1 else 0) && next.failed - res.failed == (if ok then 0 else 1)
      && next.failures == res.failures + (if ok then [] else [a.ruleID])
      && next.bytes - res.bytes == (if ok then freed else 0)
      && next.trashBytes - res.trashBytes == (if ok && WentBy(t, TrashKind, Finder) then a.bytes else 0)
      && next.stagedBytes - res.stagedBytes == (if ok && WentBy(t, TrashKind, Staging) then a.bytes else 0)
      && next.exportedBytes - res.exportedBytes == (if ok && WentBy(t, NativeKind, Export) then a.bytes else 0)
      && next.pruned.files - res.pruned.files == (if acted.pruned.None? then 0 else acted.pruned.value.files)
      && next.pruned.bytes - res.pruned.bytes == (if acted.pruned.None? then 0 else acted.pruned.value.bytes)
      && next.failedPruned.files - res.failedPruned.files ==
         (if ok || acted.pruned.None? then 0 else acted.pruned.value.files)
      && next.failedPruned.bytes - res.failedPruned.bytes ==
         (if ok || acted.pruned.None? then 0 else acted.pruned.value.bytes)
  {
    assert (tries + [t])[..|tries|] == tries;
  }

  predicate WentBy(t: Try, kind: Kind, how: Method) {
    t.action.kind == kind && t.acted.receipt.Some? && t.acted.receipt.value.how == how
  }

  // ---- what a run leaves on the disk ----

  predicate MovedBy(t: Try) { t.action.kind == TrashKind && t.acted.ok && t.acted.receipt.Some? }

  function AfterTry(v: Volume, nodes: Nodes, t: Try): Nodes {
    var with := nodes + t.acted.made;
    if MovedBy(t) then Renamed(with, v.at(t.action.path), v.at(t.acted.receipt.value.to)) else with
  }

  function AfterTries(v: Volume, nodes: Nodes, tries: seq<Try>): Nodes {
    if tries == [] then nodes else AfterTry(v, AfterTries(v, nodes, tries[..|tries| - 1]), tries[|tries| - 1])
  }

  predicate MoveWent(v: Volume, nodes: Nodes, t: Try, l: Landing)
    requires MovedBy(t)
  {
    && Moves(v, nodes, t.acted.made, t.action.path, Some(l))
    && t.acted.receipt.value == ReceiptOf(v, nodes, t.action.path, l)
  }

  /** Each move went through from the disk as the actions before it left it. */
  ghost predicate Possible(v: Volume, nodes: Nodes, t: Try) {
    && Makes(nodes, t.acted.made) && (t.action.kind == PruneKind ==> t.acted.made == map[])
    && (MovedBy(t) ==> exists l: Landing :: MoveWent(v, nodes, t, l))
    && (t.acted.ok && t.action.kind == TrashKind ==> t.acted.receipt.Some? && t.acted.receipt.value.Restorable())
    && (t.action.kind != TrashKind && t.acted.receipt.Some? ==>
      t.action.kind == NativeKind && !t.acted.receipt.value.Restorable())
    && (t.action.kind == TrashKind ==> t.acted.pruned.None?)
    && (t.action.kind == PruneKind && t.acted.ok ==> t.acted.pruned.Some?)
    && (t.action.kind == NativeKind && t.action.measure == "" ==> t.acted.pruned.None?)
    && (t.acted.pruned.Some? ==> t.acted.pruned.value.bytes >= 0)
  }

  ghost predicate AllPossible(v: Volume, nodes: Nodes, tries: seq<Try>) {
    tries != [] ==>
      var n := |tries| - 1;
      AllPossible(v, nodes, tries[..n]) && Possible(v, AfterTries(v, nodes, tries[..n]), tries[n])
  }

  predicate Ordered(tries: seq<Try>) {
    forall i, j | 0 <= i < j < |tries| :: tries[i].num < tries[j].num
  }

  /** An action that empties the Trash failed among these. */
  predicate Unsafe(tries: seq<Try>) {
    exists t <- tries :: t.action.emptiesTrash && !t.acted.ok
  }

  /** Nothing went to the Trash once emptying it had failed. */
  ghost predicate TrashSpared(tries: seq<Try>) {
    forall k | 0 <= k < |tries| && tries[k].action.kind == TrashKind :: !Unsafe(tries[..k])
  }

  class Log {
    var entries: seq<Entry>

    method Append(e: Entry, goes: bool) returns (ok: bool)
      modifies this
      ensures ok == goes && entries == old(entries) + if goes then [e] else []
    {
      if goes { entries := entries + [e]; }
      return goes;
    }
  }

  class Drive {
    const v: Volume
    var nodes: Nodes

    method Make(made: Nodes)
      requires Makes(nodes, made)
      modifies this
      ensures nodes == old(nodes) + made
    {
      nodes := nodes + made;
    }

    /** Finder is asked first; staging makes its folder, then renames. */
    method Move(path: string, landing: Option<Landing>, made: Nodes) returns (r: Option<Receipt>, folders: Nodes)
      modifies this
      ensures folders == if Makes(old(nodes), made) && Stages(v, old(nodes), path, landing) then made else map[]
      ensures r.Some? <==> Moves(v, old(nodes), folders, path, landing)
      ensures r.Some? ==> r.value == ReceiptOf(v, old(nodes), path, landing.value)
      ensures var with := old(nodes) + folders;
        nodes == if r.Some? then Renamed(with, v.at(path), v.at(landing.value.to)) else with
    {
      folders := map[];
      if v.at(path) !in nodes {
        return None, folders;
      }
      ghost var item := nodes[v.at(path)];
      if Stages(v, nodes, path, landing) && Makes(nodes, made) {
        Make(made);
        folders := made;
      }
      assert nodes == old(nodes) + folders && nodes[v.at(path)] == item;
      if landing.None? || landing.value.how == Export || !CanRename(nodes, v.at(path), v.at(landing.value.to)) {
        return None, folders;
      }
      r := Some(Receipt(path, landing.value.to, landing.value.how,
        if landing.value.known then nodes[v.at(path)] else 0));
      nodes := Renamed(nodes, v.at(path), v.at(landing.value.to));
    }

    method Restore(r: Receipt) returns (ok: bool)
      modifies this
      ensures ok == Restores(v, old(nodes), r) && nodes == AfterRestore(v, old(nodes), r)
    {
      ok := Restores(v, nodes, r);
      if ok {
        nodes := WithParents(nodes, v.at(r.original));
        nodes := Renamed(nodes, v.at(r.to), v.at(r.original));
      }
    }
  }

  /** What the switch over the action's kind does to the disk. */
  function AfterActs(v: Volume, nodes: Nodes, a: Action, acted: Acted): Nodes {
    AfterTry(v, nodes, Try(0, a, 0, 0, acted))
  }

  lemma ActsIsPossible(v: Volume, nodes: Nodes, a: Action, o: Outcome, num: nat, started: int, ended: int)
    ensures Possible(v, nodes, Try(num, a, started, ended, Acts(v, nodes, a, o)))
  {
    var t := Try(num, a, started, ended, Acts(v, nodes, a, o));
    if MovedBy(t) { assert MoveWent(v, nodes, t, o.landing.value); }
  }

  /** The switch over the action's kind. */
  method Act(drive: Drive, a: Action, o: Outcome) returns (acted: Acted)
    modifies drive
    ensures acted == Acts(drive.v, old(drive.nodes), a, o)
    ensures drive.nodes == AfterActs(drive.v, old(drive.nodes), a, acted)
  {
    var receipt: Option<Receipt>, pruned: Option<Pruned>, ok, made: Nodes := None, None, false, map[];
    match a.kind {
      case TrashKind =>
        var hooked := RunHook(a, o);
        receipt := hooked.0;
        if hooked.1 {
          var r;
          r, made := drive.Move(a.path, o.landing, o.made);
          if r.Some? {
            receipt, ok := r, true;
          }
        }
      case NativeKind =>
        var hooked := RunHook(a, o);
        receipt := hooked.0;
        if a.preAction != "" && o.hook.Hooked? && Makes(drive.nodes, o.made) {
          drive.Make(o.made);
          made := o.made;
        }
        if hooked.1 {
          if a.measure == "" {
            ok := o.ran;
          } else if o.registered {
            var m := MeasuredRun(o);
            pruned, ok := m.0, m.1;
          }
        }
      case PruneKind =>
        if o.safeCache {
          var m := MeasuredRun(o);
          pruned, ok := m.0, m.1;
        }
    }
    acted := Acted(receipt, pruned, ok, made);
  }

  /** The attempt is what the world's answer makes of the action, on the disk it found. */
  ghost predicate AsTold(v: Volume, nodes: Nodes, o: Outcome, t: Try) {
    t.started == o.started && t.ended == o.ended && t.acted == Acts(v, nodes, t.action, o)
  }

  /** Each attempt, on the disk as those before it left it. */
  ghost predicate AllAsTold(v: Volume, nodes: Nodes, world: seq<Outcome>, tries: seq<Try>) {
    tries != [] ==>
      var n := |tries| - 1;
      && AllAsTold(v, nodes, world, tries[..n])
      && 1 <= tries[n].num <= |world|
      && AsTold(v, AfterTries(v, nodes, tries[..n]), world[tries[n].num - 1], tries[n])
  }

  datatype Err = NoErr | Canceled | StartNotLogged | EndNotLogged

  /** How the loop leaves the action with this answer: tried when it was attempted. */
  ghost predicate Leaves(o: Outcome, err: Err, goes: bool, stopped: bool, tried: bool) {
    if o.canceled then !goes && err == Canceled && !stopped && !tried
    else if o.stop then !goes && err == NoErr && stopped && !tried
    else if tried then o.startLogged && !stopped && goes == o.endLogged && err == (if goes then NoErr else EndNotLogged)
    else !stopped && (goes || !o.startLogged) && err == (if goes then NoErr else StartNotLogged)
  }

  /** No action after a cancel or a stop, none without its start line, none after one
      whose end line failed; and the run ends for the reason it gives. */
  ghost predicate Ends(world: seq<Outcome>, reached: nat, tries: seq<Try>, err: Err, stopped: bool) {
    && reached <= |world|
    && (forall n | 0 <= n < reached :: !world[n].canceled && !world[n].stop)
    && (forall t <- tries :: 1 <= t.num <= reached && world[t.num - 1].startLogged)
    && (forall t <- tries :: world[t.num - 1].endLogged || (err == EndNotLogged && t.num == reached))
    && match err
       case NoErr => stopped ==> reached < |world| && !world[reached].canceled && world[reached].stop
       case Canceled => !stopped && reached < |world| && world[reached].canceled
       case StartNotLogged => !stopped && reached < |world| && !world[reached].startLogged
       case EndNotLogged => !stopped && reached > 0 && !world[reached - 1].endLogged
  }

  lemma EndsNext(world: seq<Outcome>, i: nat, tries: seq<Try>, all: seq<Try>, err: Err, goes: bool, stopped: bool)
    requires i < |world| && Ends(world, i, tries, NoErr, false) && Leaves(world[i], err, goes, stopped, all != tries)
    requires all == tries || (all != [] && all[..|all| - 1] == tries && all[|all| - 1].num == i + 1)
    ensures Ends(world, if goes || err == EndNotLogged then i + 1 else i, all, err, stopped)
  {
    if all != tries { assert all == tries + [all[|all| - 1]]; }
  }

  /** What was journaled of the attempts: all of it, or, had the last end line failed,
      all but that line. */
  ghost predicate Journaled(run: string, tries: seq<Try>, err: Err, es: seq<Entry>) {
    if err == EndNotLogged then tries != [] && es + [EndLine(run, tries[|tries| - 1])] == Lines(run, tries)
    else es == Lines(run, tries)
  }

  predicate Tried(tries: seq<Try>, num: nat) {
    exists t <- tries :: t.num == num
  }

  /** An attempt before this number had failed to empty the Trash. */
  predicate FailedBefore(tries: seq<Try>, num: nat) {
    exists t <- tries :: t.num < num && t.action.emptiesTrash && !t.acted.ok
  }

  /** Those of the first n actions that were not attempted, in order. */
  function Untried(actions: seq<Action>, n: nat, tries: seq<Try>): seq<Action>
    requires n <= |actions|
  {
    if n == 0 then [] else Untried(actions, n - 1, tries) + if Tried(tries, n) then [] else [actions[n - 1]]
  }

  /** Each action before i was attempted, in order and under its own number, or is among
      the skipped, in order: just the moves to the Trash after emptying it had failed. */
  ghost predicate Went(actions: seq<Action>, i: nat, tries: seq<Try>, skipped: seq<Action>) {
    && i <= |actions|
    && Ordered(tries) && TrashSpared(tries)
    && (forall t <- tries :: 1 <= t.num <= i && t.action == actions[t.num - 1])
    && skipped == Untried(actions, i, tries)
    && (forall n | 0 < n <= i && !Tried(tries, n) :: actions[n - 1].kind == TrashKind && FailedBefore(tries, n))
  }

  /** The start line, the action, the end line: none without its start line. */
  method Attempt(log: Log, drive: Drive, run: string, num: nat, a: Action, o: Outcome)
    returns (t: Option<Try>, logged: bool)
    modifies log, drive
    ensures t.Some? == o.startLogged && (t.Some? ==> logged == o.endLogged)
    ensures t.None? ==> log.entries == old(log.entries) && drive.nodes == old(drive.nodes)
    ensures t.Some? ==> t.value == Try(num, a, o.started, o.ended, Acts(drive.v, old(drive.nodes), a, o))
    ensures t.Some? ==>
      drive.nodes == AfterTry(drive.v, old(drive.nodes), t.value) && Possible(drive.v, old(drive.nodes), t.value)
    ensures t.Some? ==>
      log.entries == old(log.entries) + if logged then [StartLine(run, t.value), EndLine(run, t.value)]
        else [StartLine(run, t.value)]
  {
    var start := Entry(o.started, run, num, Start, a.ruleID, a.itemKey, Some(a.kind), a.path, a.bytes, None, None, "");
    var ok := log.Append(start, o.startLogged);
    if !ok {
      return None, false;
    }
    var acted := Act(drive, a, o);
    ActsIsPossible(drive.v, old(drive.nodes), a, o, num, o.started, o.ended);
    t := Some(Try(num, a, o.started, o.ended, acted));
    logged := log.Append(EndLine(run, t.value), o.endLogged);
  }

  /** The run after i actions: what was tried and skipped, its totals, and the disk. */
  ghost predicate Ran(v: Volume, nodes0: Nodes, nodes: Nodes, actions: seq<Action>, i: nat, tries: seq<Try>,
                      res: Result) {
    && Tallied(res, tries) && Went(actions, i, tries, res.skipped)
    && nodes == AfterTries(v, nodes0, tries) && AllPossible(v, nodes0, tries)
  }

  /** What one turn of the loop comes to. */
  ghost predicate Turned(v: Volume, nodes0: Nodes, nodes: Nodes, run: string, before: seq<Entry>, es: seq<Entry>,
                         actions: seq<Action>, i: nat, o: Outcome, tries: seq<Try>, all: seq<Try>, next: Result,
                         err: Err, goes: bool, unsafe: bool, reached: nat) {
    && Ran(v, nodes0, nodes, actions, reached, all, next)
    && Grew(v, nodes0, o, i, tries, all) && Leaves(o, err, goes, next.stopped, all != tries)
    && reached == (if goes || err == EndNotLogged then i + 1 else i)
    && (if goes then err == NoErr && unsafe == Unsafe(all) && es == before + Lines(run, all)
        else (err != NoErr || next.stopped) && before <= es && Journaled(run, all, err, es[|before|..]))
  }

  lemma NotTaken(v: Volume, nodes0: Nodes, nodes: Nodes, run: string, before: seq<Entry>, es: seq<Entry>,
                 actions: seq<Action>, i: nat, o: Outcome, tries: seq<Try>, res: Result, err: Err)
    requires Ran(v, nodes0, nodes, actions, i, tries, res) && !res.stopped && es == before + Lines(run, tries)
    requires if o.canceled then err == Canceled else !o.stop && !o.startLogged && err == StartNotLogged
    ensures Turned(v, nodes0, nodes, run, before, es, actions, i, o, tries, tries, res, err, false, Unsafe(tries), i)
  {
    JournalStays(run, tries, err, before, es);
  }

  lemma Stopped(v: Volume, nodes0: Nodes, nodes: Nodes, run: string, before: seq<Entry>, es: seq<Entry>,
                actions: seq<Action>, i: nat, o: Outcome, tries: seq<Try>, res: Result)
    requires Ran(v, nodes0, nodes, actions, i, tries, res) && es == before + Lines(run, tries)
    requires !o.canceled && o.stop
    ensures Turned(v, nodes0, nodes, run, before, es, actions, i, o, tries, tries, res.(stopped := true), NoErr, false,
                   Unsafe(tries), i)
  {
    JournalStays(run, tries, NoErr, before, es);
  }

  lemma SkipTurn(v: Volume, nodes0: Nodes, nodes: Nodes, run: string, before: seq<Entry>, es: seq<Entry>,
                 actions: seq<Action>, i: nat, o: Outcome, tries: seq<Try>, res: Result)
    requires Ran(v, nodes0, nodes, actions, i, tries, res) && !res.stopped && es == before + Lines(run, tries)
    requires i < |actions| && !o.canceled && !o.stop && Unsafe(tries) && actions[i].kind == TrashKind
    ensures Turned(v, nodes0, nodes, run, before, es, actions, i, o, tries, tries,
                   res.(skipped := res.skipped + [actions[i]]), NoErr, true, true, i + 1)
  {
    SkipGoes(actions, i, tries, res.skipped);
  }

  lemma TurnTaken(v: Volume, nodes0: Nodes, nodes: Nodes, run: string, before: seq<Entry>, es: seq<Entry>,
                  actions: seq<Action>, i: nat, o: Outcome, tries: seq<Try>, all: seq<Try>, next: Result)
    requires Ran(v, nodes0, nodes, actions, i + 1, all, next) && !next.stopped
    requires Grew(v, nodes0, o, i, tries, all) && all != tries && !o.canceled && !o.stop && o.startLogged
    requires if o.endLogged then es == before + Lines(run, all)
      else before <= es && Journaled(run, all, EndNotLogged, es[|before|..])
    ensures Turned(v, nodes0, nodes, run, before, es, actions, i, o, tries, all, next,
                   if o.endLogged then NoErr else EndNotLogged, o.endLogged, Unsafe(all), i + 1)
  {
  }

  /** One action attempted, journaled and counted. */
  method TryOne(log: Log, drive: Drive, run: string, ghost before: seq<Entry>, ghost nodes0: Nodes,
                actions: seq<Action>, i: nat, o: Outcome, res: Result, ghost tries: seq<Try>)
    returns (t: Option<Try>, logged: bool, next: Result)
    requires i < |actions| && Ran(drive.v, nodes0, drive.nodes, actions, i, tries, res) && !res.stopped
    requires log.entries == before + Lines(run, tries)
    requires (actions[i].kind == TrashKind ==> !Unsafe(tries)) && !o.canceled && !o.stop
    modifies log, drive
    ensures t.None? ==>
      Turned(drive.v, nodes0, drive.nodes, run, before, log.entries, actions, i, o, tries, tries, next, StartNotLogged,
             false, Unsafe(tries), i)
    ensures t.Some? ==>
      Turned(drive.v, nodes0, drive.nodes, run, before, log.entries, actions, i, o, tries, tries + [t.value], next,
             if logged then NoErr else EndNotLogged, logged, Unsafe(tries + [t.value]), i + 1)
    ensures t.Some? ==> (Unsafe(tries + [t.value]) <==> Unsafe(tries) || (actions[i].emptiesTrash && !t.value.acted.ok))
  {
    next := res;
    t, logged := Attempt(log, drive, run, i + 1, actions[i], o);
    if t.None? {
      NotTaken(drive.v, nodes0, drive.nodes, run, before, log.entries, actions, i, o, tries, res, StartNotLogged);
    } else {
      next := Count(res, t.value);
      JournalGoes(run, tries, t.value, logged, before, log.entries);
      TryTurns(drive.v, nodes0, old(drive.nodes), drive.nodes, run, before, log.entries, actions, i, o, tries, res,
               next, t.value);
    }
  }

  lemma TryTurns(v: Volume, nodes0: Nodes, nodes: Nodes, after: Nodes, run: string, before: seq<Entry>, es: seq<Entry>,
                 actions: seq<Action>, i: nat, o: Outcome, tries: seq<Try>, res: Result, next: Result, t: Try)
    requires Ran(v, nodes0, nodes, actions, i, tries, res) && !res.stopped
    requires i < |actions| && t.num == i + 1 && t.action == actions[i]
      && (t.action.kind == TrashKind ==> !Unsafe(tries))
    requires after == AfterTry(v, nodes, t) && Possible(v, nodes, t) && AsTold(v, nodes, o, t)
    requires (Tallied(res, tries) ==> Tallied(next, tries + [t])) && next.skipped == res.skipped && !next.stopped
    requires !o.canceled && !o.stop && o.startLogged
    requires if o.endLogged then es == before + Lines(run, tries + [t])
      else before <= es && Journaled(run, tries + [t], EndNotLogged, es[|before|..])
    ensures Turned(v, nodes0, after, run, before, es, actions, i, o, tries, tries + [t], next,
                   if o.endLogged then NoErr else EndNotLogged, o.endLogged, Unsafe(tries + [t]), i + 1)
    ensures Unsafe(tries + [t]) <==> Unsafe(tries) || (t.action.emptiesTrash && !t.acted.ok)
  {
    TryRuns(v, nodes0, nodes, after, actions, i, tries, res, next, t);
    GrewOne(v, nodes0, nodes, o, i, tries, t);
    TurnTaken(v, nodes0, after, run, before, es, actions, i, o, tries, tries + [t], next);
  }

  /** The same, for an action that is attempted. */
  method TryAction(log: Log, drive: Drive, run: string, ghost before: seq<Entry>, ghost nodes0: Nodes,
                   actions: seq<Action>, i: nat, o: Outcome, trashUnsafe: bool, res: Result, ghost tries: seq<Try>)
    returns (next: Result, err: Err, goes: bool, unsafe: bool, ghost all: seq<Try>, ghost reached: nat)
    requires i < |actions| && Ran(drive.v, nodes0, drive.nodes, actions, i, tries, res) && !res.stopped
    requires log.entries == before + Lines(run, tries) && trashUnsafe == Unsafe(tries)
    requires (actions[i].kind == TrashKind ==> !trashUnsafe) && !o.canceled && !o.stop
    modifies log, drive
    ensures Turned(drive.v, nodes0, drive.nodes, run, before, log.entries, actions, i, o, tries, all, next, err, goes,
                   unsafe, reached)
  {
    err, goes, unsafe, all, reached := NoErr, false, trashUnsafe, tries, i;
    var t, logged;
    t, logged, next := TryOne(log, drive, run, before, nodes0, actions, i, o, res, tries);
    if t.None? {
      err := StartNotLogged;
      return;
    }
    unsafe := trashUnsafe || (actions[i].emptiesTrash && !t.value.acted.ok);
    all, reached := tries + [t.value], i + 1;
    goes := logged;
    if !logged {
      err := EndNotLogged;
      return;
    }
  }

  /** The body of the run's loop: goes is false when the run ends here. */
  method OneAction(log: Log, drive: Drive, run: string, ghost before: seq<Entry>, ghost nodes0: Nodes,
                   actions: seq<Action>, i: nat, o: Outcome, trashUnsafe: bool, res: Result, ghost tries: seq<Try>)
    returns (next: Result, err: Err, goes: bool, unsafe: bool, ghost all: seq<Try>, ghost reached: nat)
    requires i < |actions| && Ran(drive.v, nodes0, drive.nodes, actions, i, tries, res) && !res.stopped
    requires log.entries == before + Lines(run, tries) && trashUnsafe == Unsafe(tries)
    modifies log, drive
    ensures Turned(drive.v, nodes0, drive.nodes, run, before, log.entries, actions, i, o, tries, all, next, err, goes,
                   unsafe, reached)
  {
    next, err, goes, unsafe, all, reached := res, NoErr, false, trashUnsafe, tries, i;
    var a := actions[i];
    if o.canceled {
      NotTaken(drive.v, nodes0, drive.nodes, run, before, log.entries, actions, i, o, tries, res, Canceled);
      err := Canceled;
    } else if o.stop {
      Stopped(drive.v, nodes0, drive.nodes, run, before, log.entries, actions, i, o, tries, res);
      next := res.(stopped := true);
    } else if trashUnsafe && a.kind == TrashKind {
      SkipTurn(drive.v, nodes0, drive.nodes, run, before, log.entries, actions, i, o, tries, res);
      next, goes, reached := res.(skipped := res.skipped + [a]), true, i + 1;
    } else {
      next, err, goes, unsafe, all, reached :=
        TryAction(log, drive, run, before, nodes0, actions, i, o, trashUnsafe, res, tries);
    }
  }

  /** No attempt more, or this one. */
  ghost predicate Grew(v: Volume, nodes0: Nodes, o: Outcome, i: nat, tries: seq<Try>, all: seq<Try>) {
    all == tries ||
    (all != [] && all[..|all| - 1] == tries && all[|all| - 1].num == i + 1 &&
     AsTold(v, AfterTries(v, nodes0, tries), o, all[|all| - 1]))
  }

  lemma GrewOne(v: Volume, nodes0: Nodes, nodes: Nodes, o: Outcome, i: nat, tries: seq<Try>, t: Try)
    requires nodes == AfterTries(v, nodes0, tries) && AsTold(v, nodes, o, t) && t.num == i + 1
    ensures Grew(v, nodes0, o, i, tries, tries + [t]) && tries + [t] != tries
  {
    assert (tries + [t])[..|tries|] == tries;
  }

  lemma JournalStays(run: string, tries: seq<Try>, err: Err, before: seq<Entry>, after: seq<Entry>)
    requires after == before + Lines(run, tries) && err != EndNotLogged
    ensures before <= after && Journaled(run, tries, err, after[|before|..])
  {
  }

  /** The run goes on, with i of its actions behind it. */
  ghost predicate Running(v: Volume, nodes0: Nodes, nodes: Nodes, run: string, before: seq<Entry>, es: seq<Entry>,
                          actions: seq<Action>, world: seq<Outcome>, i: nat, tries: seq<Try>, res: Result,
                          unsafe: bool) {
    && Ran(v, nodes0, nodes, actions, i, tries, res) && !res.stopped && unsafe == Unsafe(tries)
    && es == before + Lines(run, tries)
    && AllAsTold(v, nodes0, world, tries) && Ends(world, i, tries, NoErr, false)
  }

  /** The run is over. */
  ghost predicate RunIsOver(v: Volume, nodes0: Nodes, nodes: Nodes, run: string, before: seq<Entry>, es: seq<Entry>,
                            actions: seq<Action>, world: seq<Outcome>, reached: nat, tries: seq<Try>, res: Result,
                            err: Err) {
    && AllAsTold(v, nodes0, world, tries) && Ends(world, reached, tries, err, res.stopped)
    && Ran(v, nodes0, nodes, actions, reached, tries, res)
    && (err == NoErr && !res.stopped ==> reached == |actions|)
    && before <= es && Journaled(run, tries, err, es[|before|..])
  }

  lemma TurnGoesOn(v: Volume, nodes0: Nodes, nodes: Nodes, run: string, before: seq<Entry>, es: seq<Entry>,
                   actions: seq<Action>, world: seq<Outcome>, i: nat, tries: seq<Try>, all: seq<Try>, next: Result,
                   err: Err, goes: bool, unsafe: bool, reached: nat)
    requires i < |world| == |actions|
    requires AllAsTold(v, nodes0, world, tries) && Ends(world, i, tries, NoErr, false)
    requires Turned(v, nodes0, nodes, run, before, es, actions, i, world[i], tries, all, next, err, goes, unsafe,
      reached)
    ensures goes ==>
      err == NoErr && reached == i + 1
        && Running(v, nodes0, nodes, run, before, es, actions, world, i + 1, all, next, unsafe)
    ensures !goes ==> RunIsOver(v, nodes0, nodes, run, before, es, actions, world, reached, all, next, err)
  {
    EndsNext(world, i, tries, all, err, goes, next.stopped);
  }

  lemma RunReached(v: Volume, nodes0: Nodes, nodes: Nodes, run: string, before: seq<Entry>, es: seq<Entry>,
                   actions: seq<Action>, world: seq<Outcome>, tries: seq<Try>, res: Result, unsafe: bool)
    requires Running(v, nodes0, nodes, run, before, es, actions, world, |actions|, tries, res, unsafe)
    ensures RunIsOver(v, nodes0, nodes, run, before, es, actions, world, |actions|, tries, res, NoErr)
  {
    JournalStays(run, tries, NoErr, before, es);
  }

  method Execute(log: Log, drive: Drive, run: string, actions: seq<Action>, world: seq<Outcome>)
    returns (res: Result, err: Err, ghost tries: seq<Try>, ghost reached: nat)
    requires |world| == |actions|
    modifies log, drive
    ensures AllAsTold(drive.v, old(drive.nodes), world, tries) && Ends(world, reached, tries, err, res.stopped)
    ensures Ran(drive.v, old(drive.nodes), drive.nodes, actions, reached, tries, res)
    ensures err == NoErr && !res.stopped ==> reached == |actions|
    ensures old(log.entries) <= log.entries && Journaled(run, tries, err, log.entries[|old(log.entries)|..])
  {
    res, err, tries, reached := EMPTY, NoErr, [], 0;
    var trashUnsafe := false;
    ghost var before, nodes0 := log.entries, drive.nodes;
    assert log.entries == before + Lines(run, []);
    for i := 0 to |actions|
      invariant reached == i && err == NoErr
      invariant
        Running(drive.v, nodes0, drive.nodes, run, before, log.entries, actions, world, i, tries, res, trashUnsafe)
    {
      var goes;
      ghost var tries0 := tries;
      res, err, goes, trashUnsafe, tries, reached :=
        OneAction(log, drive, run, before, nodes0, actions, i, world[i], trashUnsafe, res, tries);
      TurnGoesOn(drive.v, nodes0, drive.nodes, run, before, log.entries, actions, world, i, tries0, tries, res, err,
        goes,
                 trashUnsafe, reached);
      if !goes {
        return;
      }
    }
    RunReached(drive.v, nodes0, drive.nodes, run, before, log.entries, actions, world, tries, res, trashUnsafe);
  }

  lemma TryRuns(v: Volume, nodes0: Nodes, nodes: Nodes, next: Nodes, actions: seq<Action>, i: nat, tries: seq<Try>,
                res: Result, res1: Result, t: Try)
    requires Ran(v, nodes0, nodes, actions, i, tries, res) && i < |actions| && t.num == i + 1 && t.action == actions[i]
    requires t.action.kind == TrashKind ==> !Unsafe(tries)
    requires next == AfterTry(v, nodes, t) && Possible(v, nodes, t)
    requires (Tallied(res, tries) ==> Tallied(res1, tries + [t])) && res1.skipped == res.skipped
    ensures Ran(v, nodes0, next, actions, i + 1, tries + [t], res1)
    ensures Unsafe(tries + [t]) <==> Unsafe(tries) || (t.action.emptiesTrash && !t.acted.ok)
  {
    TryGoes(actions, i, tries, res.skipped, t);
    TryMoves(v, nodes0, tries, t);
  }

  lemma JournalGoes(run: string, tries: seq<Try>, t: Try, logged: bool, before: seq<Entry>, after: seq<Entry>)
    requires after == before + Lines(run, tries) + if logged then [StartLine(run, t), EndLine(run, t)]
      else [StartLine(run, t)]
    ensures logged ==> after == before + Lines(run, tries + [t])
    ensures !logged ==> before <= after && Journaled(run, tries + [t], EndNotLogged, after[|before|..])
  {
    TryLines(run, tries, t);
    if !logged {
      assert after[|before|..] == Lines(run, tries) + [StartLine(run, t)];
      assert Lines(run, tries) + [StartLine(run, t)] + [EndLine(run, t)] == Lines(run, tries + [t]);
    }
  }

  lemma SkipGoes(actions: seq<Action>, i: nat, tries: seq<Try>, skipped: seq<Action>)
    requires i < |actions| && Went(actions, i, tries, skipped) && Unsafe(tries) && actions[i].kind == TrashKind
    ensures Went(actions, i + 1, tries, skipped + [actions[i]])
  {
    assert !Tried(tries, i + 1);
    assert FailedBefore(tries, i + 1);
  }

  /** A later attempt changes nothing for the actions before it. */
  lemma TriedBefore(tries: seq<Try>, t: Try, n: nat)
    requires n < t.num
    ensures Tried(tries + [t], n) == Tried(tries, n)
    ensures FailedBefore(tries, n) ==> FailedBefore(tries + [t], n)
  {
    assert forall u :: u in tries + [t] <==> u in tries || u == t;
  }

  lemma {:induction false} UntriedSame(actions: seq<Action>, n: nat, tries: seq<Try>, t: Try)
    requires n <= |actions| && n < t.num
    ensures Untried(actions, n, tries + [t]) == Untried(actions, n, tries)
  {
    if n > 0 {
      UntriedSame(actions, n - 1, tries, t);
      TriedBefore(tries, t, n);
    }
  }

  lemma TryGoes(actions: seq<Action>, i: nat, tries: seq<Try>, skipped: seq<Action>, t: Try)
    requires i < |actions| && Went(actions, i, tries, skipped) && t.num == i + 1 && t.action == actions[i]
    requires t.action.kind == TrashKind ==> !Unsafe(tries)
    ensures Went(actions, i + 1, tries + [t], skipped)
    ensures Unsafe(tries + [t]) <==> Unsafe(tries) || (t.action.emptiesTrash && !t.acted.ok)
  {
    UnsafeNext(tries, t);
    SparedNext(tries, t);
    TryListed(actions, i, tries, t);
    TryNumbered(actions, i, tries, t);
    forall n | 0 < n <= i + 1 && !Tried(tries + [t], n)
      ensures actions[n - 1].kind == TrashKind && FailedBefore(tries + [t], n)
    {
      NotTried(tries, t, n);
      TriedBefore(tries, t, n);
    }
  }

  lemma TryNumbered(actions: seq<Action>, i: nat, tries: seq<Try>, t: Try)
    requires i < |actions| && t.num == i + 1 && t.action == actions[i] && Ordered(tries)
    requires forall u <- tries :: 1 <= u.num <= i && u.action == actions[u.num - 1]
    ensures Ordered(tries + [t])
    ensures forall u <- tries + [t] :: 1 <= u.num <= i + 1 && u.action == actions[u.num - 1]
  {
    forall k | 0 <= k < |tries| ensures tries[k].num < t.num { assert tries[k] in tries; }
  }

  lemma NotTried(tries: seq<Try>, t: Try, n: nat)
    requires !Tried(tries + [t], n)
    ensures n != t.num
  {
    assert t in tries + [t];
  }

  lemma TryListed(actions: seq<Action>, i: nat, tries: seq<Try>, t: Try)
    requires i < |actions| && t.num == i + 1
    ensures Untried(actions, i + 1, tries + [t]) == Untried(actions, i, tries)
  {
    UntriedSame(actions, i, tries, t);
    assert t in tries + [t];
  }

  lemma UnsafeNext(tries: seq<Try>, t: Try)
    ensures Unsafe(tries + [t]) <==> Unsafe(tries) || (t.action.emptiesTrash && !t.acted.ok)
  {
    if Unsafe(tries) {
      var u :| u in tries && u.action.emptiesTrash && !u.acted.ok;
      assert u in tries + [t];
    }
    if t.action.emptiesTrash && !t.acted.ok { assert t in tries + [t]; }
  }

  lemma SparedNext(tries: seq<Try>, t: Try)
    requires TrashSpared(tries) && (t.action.kind == TrashKind ==> !Unsafe(tries))
    ensures TrashSpared(tries + [t])
  {
    var all := tries + [t];
    forall k | 0 <= k < |all| && all[k].action.kind == TrashKind ensures !Unsafe(all[..k]) {
      assert all[..k] == tries[..k];
      assert tries[..|tries|] == tries;
    }
  }

  lemma TryLines(run: string, tries: seq<Try>, t: Try)
    ensures Lines(run, tries + [t]) == Lines(run, tries) + [StartLine(run, t), EndLine(run, t)]
  {
    assert (tries + [t])[..|tries|] == tries;
  }

  lemma TryMoves(v: Volume, nodes: Nodes, tries: seq<Try>, t: Try)
    requires AllPossible(v, nodes, tries) && Possible(v, AfterTries(v, nodes, tries), t)
    ensures AllPossible(v, nodes, tries + [t])
    ensures AfterTries(v, nodes, tries + [t]) == AfterTry(v, AfterTries(v, nodes, tries), t)
  {
    assert (tries + [t])[..|tries|] == tries;
  }

  /** Just the moves to the Trash after a failed emptying of it are not attempted. */
  lemma SkippedExactly(actions: seq<Action>, i: nat, tries: seq<Try>, skipped: seq<Action>, n: nat)
    requires Went(actions, i, tries, skipped) && 0 < n <= i
    ensures (exists t <- tries :: t.num == n) <==> !(actions[n - 1].kind == TrashKind && EmptyingFailed(tries, n))
  {
    if Tried(tries, n) {
      var k :| 0 <= k < |tries| && tries[k].num == n;
      assert tries[k] in tries;
      forall x | 0 <= x < |tries| && tries[x].num < n && actions[n - 1].kind == TrashKind
        ensures !(tries[x].action.emptiesTrash && !tries[x].acted.ok)
      {
        assert tries[x] in tries[..k];
      }
    } else {
      assert FailedBefore(tries, n);
    }
  }

  ghost predicate EmptyingFailed(tries: seq<Try>, n: nat) {
    exists t <- tries :: t.num < n && t.action.emptiesTrash && !t.acted.ok
  }

  // ---- what each attempt comes to ----

  lemma {:induction false} ToldAt(v: Volume, nodes: Nodes, world: seq<Outcome>, tries: seq<Try>, k: nat)
    requires AllAsTold(v, nodes, world, tries) && k < |tries|
    ensures 1 <= tries[k].num <= |world|
    ensures AsTold(v, AfterTries(v, nodes, tries[..k]), world[tries[k].num - 1], tries[k])
    ensures AfterTries(v, nodes, tries[..k + 1]) == AfterTry(v, AfterTries(v, nodes, tries[..k]), tries[k])
  {
    assert tries[..k + 1][..k] == tries[..k];
    if k < |tries| - 1 {
      ToldAt(v, nodes, world, tries[..|tries| - 1], k);
      assert tries[..|tries| - 1][..k] == tries[..k] && tries[..|tries| - 1][..k + 1] == tries[..k + 1];
    } else {
      assert tries[..|tries|] == tries;
    }
  }

  /** The tarball a hook exported to, whether it agreed or not. */
  function HookReceipt(a: Action, o: Outcome): Option<Receipt> {
    if a.preAction != "" && o.hook.Hooked? && o.hook.tarball.Some?
    then Some(Receipt(o.hook.volume, o.hook.tarball.value, Export, 0))
    else None
  }

  /** An action whose hook is not registered, or refuses, is a failed attempt: it is not
      measured, it moves nothing, and the disk gains what the hook itself made at most. */
  lemma RefusedIsFailed(v: Volume, nodes: Nodes, world: seq<Outcome>, run: string, tries: seq<Try>, k: nat)
    requires AllAsTold(v, nodes, world, tries) && k < |tries| && 1 <= tries[k].num <= |world|
    requires tries[k].action.preAction != "" && tries[k].action.kind != PruneKind
    requires var hook := world[tries[k].num - 1].hook; hook.Unregistered? || !hook.ok
    ensures var acted := tries[k].acted; !acted.ok && acted.pruned.None? && EndLine(run, tries[k]).event == Fail
    ensures tries[k].acted.receipt == HookReceipt(tries[k].action, world[tries[k].num - 1])
    ensures AfterTries(v, nodes, tries[..k + 1]) == AfterTries(v, nodes, tries[..k]) + tries[k].acted.made
    ensures var o, before := world[tries[k].num - 1], AfterTries(v, nodes, tries[..k]);
      tries[k].acted.made ==
      if tries[k].action.kind == NativeKind && o.hook.Hooked? && Makes(before, o.made) then o.made else map[]
  {
    ToldAt(v, nodes, world, tries, k);
  }

  /** A Trash action whose hook, if it names one, agrees is done exactly when the item is
      there and Finder, or staging once its folders are made, put it somewhere free; its
      receipt says where it went and which item it is. */
  lemma MoveDecides(v: Volume, nodes: Nodes, world: seq<Outcome>, tries: seq<Try>, k: nat)
    requires AllAsTold(v, nodes, world, tries) && k < |tries| && 1 <= tries[k].num <= |world|
    requires tries[k].action.kind == TrashKind
    requires tries[k].action.preAction == "" || (var hook := world[tries[k].num - 1].hook; hook.Hooked? && hook.ok)
    ensures MoveCameTo(v, AfterTries(v, nodes, tries[..k]), world[tries[k].num - 1], tries[k])
    ensures var acted, before := tries[k].acted, AfterTries(v, nodes, tries[..k]);
      AfterTries(v, nodes, tries[..k + 1]) ==
      if acted.ok then Renamed(before + acted.made, v.at(tries[k].action.path), v.at(acted.receipt.value.to))
      else before + acted.made
  {
    ToldAt(v, nodes, world, tries, k);
  }

  ghost predicate MoveCameTo(v: Volume, before: Nodes, o: Outcome, t: Try) {
    var path, acted := t.action.path, t.acted;
    && (acted.ok <==>
          && v.at(path) in before && o.landing.Some? && o.landing.value.how in {Finder, Staging}
          && CanRename(before + acted.made, v.at(path), v.at(o.landing.value.to)))
    && (acted.ok ==> acted.receipt == Some(Receipt(path, o.landing.value.to, o.landing.value.how,
                                             if o.landing.value.known then before[v.at(path)] else 0)))
    && (!acted.ok ==> acted.receipt == HookReceipt(t.action, o))
    && acted.made == (if v.at(path) in before && !(o.landing.Some? && o.landing.value.how == Finder) &&
                         Makes(before, o.made) then o.made else map[])
    && acted.pruned.None?
  }

  /** A command whose hook, if it names one, agrees comes to what the command does, or,
      measured, to what both measures say, its receipt the hook's; it moves nothing. */
  lemma CommandDecides(v: Volume, nodes: Nodes, world: seq<Outcome>, tries: seq<Try>, k: nat)
    requires AllAsTold(v, nodes, world, tries) && k < |tries| && 1 <= tries[k].num <= |world|
    requires tries[k].action.kind == NativeKind
    requires tries[k].action.preAction == "" || (var hook := world[tries[k].num - 1].hook; hook.Hooked? && hook.ok)
    ensures var a, acted, o := tries[k].action, tries[k].acted, world[tries[k].num - 1];
      && (if a.measure == "" then acted.ok == o.ran && acted.pruned.None?
          else MeasuredAs(o, o.registered, acted))
      && acted.receipt == HookReceipt(a, o)
    ensures AfterTries(v, nodes, tries[..k + 1]) == AfterTries(v, nodes, tries[..k]) + tries[k].acted.made
    ensures var o, before := world[tries[k].num - 1], AfterTries(v, nodes, tries[..k]);
      tries[k].acted.made == if tries[k].action.preAction != "" && Makes(before, o.made) then o.made else map[]
  {
    ToldAt(v, nodes, world, tries, k);
  }

  /** Done exactly when it may run, both measures were taken and the command worked; with
      both, whatever came of the command, what went is the difference, never below zero. */
  ghost predicate MeasuredAs(o: Outcome, may: bool, acted: Acted) {
    && (acted.ok <==> may && o.before.Some? && o.after.Some? && o.ran)
    && (acted.pruned.Some? <==> may && o.before.Some? && o.after.Some?)
    && (acted.pruned.Some? ==>
          && Difference(o.before.value.files, o.after.value.files, acted.pruned.value.files)
          && Difference(o.before.value.bytes, o.after.value.bytes, acted.pruned.value.bytes))
  }

  ghost predicate Difference(before: int, after: int, gone: int) {
    gone >= 0 && gone >= before - after && (gone == 0 || gone == before - after)
  }

  /** A prune comes to what both measures and its command say, once its target is checked. */
  lemma PruneDecides(v: Volume, nodes: Nodes, world: seq<Outcome>, tries: seq<Try>, k: nat)
    requires AllAsTold(v, nodes, world, tries) && k < |tries| && 1 <= tries[k].num <= |world|
    requires tries[k].action.kind == PruneKind
    ensures var o, acted := world[tries[k].num - 1], tries[k].acted;
      MeasuredAs(o, o.safeCache, acted) && acted.receipt.None?
    ensures AfterTries(v, nodes, tries[..k + 1]) == AfterTries(v, nodes, tries[..k])
  {
    ToldAt(v, nodes, world, tries, k);
    assert AfterTries(v, nodes, tries[..k]) + map[] == AfterTries(v, nodes, tries[..k]);
  }

  /** What the journal says of each attempt: what was about to be done, and what came of it. */
  lemma {:induction false} JournalSays(run: string, tries: seq<Try>, k: nat)
    requires k < |tries|
    ensures 2 * k + 1 < |Lines(run, tries)|
    ensures var t, s, e := tries[k], Lines(run, tries)[2 * k], Lines(run, tries)[2 * k + 1];
      && s.event == Start && s.kind == Some(t.action.kind) && s.path == t.action.path && s.bytes == t.action.bytes
      && s.itemKey == t.action.itemKey && s.time == t.started && e.time == t.ended
      && s.receipt.None? && s.pruned.None? && s.error == ""
      && e.itemKey == "" && e.kind.None? && e.path == "" && e.bytes == 0
      && s.run == e.run == run && s.num == e.num == t.num && s.ruleID == e.ruleID == t.action.ruleID
      && e.receipt == t.acted.receipt && e.pruned == t.acted.pruned
      && (if t.acted.ok then e.event == Done && e.error == "" else e.event == Fail && e.error != "")
  {
    if k < |tries| - 1 { JournalSays(run, tries[..|tries| - 1], k); }
  }
}
