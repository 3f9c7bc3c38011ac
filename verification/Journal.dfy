// The journal's entries, grouped into runs, and what undo and history read from
// them: internal/oplog/oplog.go and summary.go.
module Journal {
  import opened Catalog

  datatype Method = Finder | Staging | Export

  /** Where a move or an export landed. ino 0: the item's identity was not recorded. */
  datatype Receipt = Receipt(original: string, to: string, how: Method, ino: nat) {
    predicate Restorable() { how != Export }
  }

  datatype Pruned = Pruned(files: int, bytes: int)

  datatype Event = Start | Done | Fail | Undo | Unknown

  datatype Entry = Entry(time: int, run: string, num: int, event: Event, ruleID: string, itemKey: string,
                         kind: Option<Kind>,
                         path: string, bytes: int, receipt: Option<Receipt>, pruned: Option<Pruned>, error: string)

  const ZERO := Entry(0, "", 0, Start, "", "", None, "", 0, None, None, "")

  // ---- names taken again ----

  predicate Moved(e: Entry) { e.event == Done && e.receipt.Some? }

  /** Whether the second receipt's copy took the first one's name: exactly, or, when
      the first records no identity, ignoring case. */
  predicate SameName(a: Receipt, b: Receipt, fold: string -> string) {
    if a.ino == 0 then fold(a.to) == fold(b.to) else a.to == b.to
  }

  ghost predicate Reused(es: seq<Entry>, i: nat, fold: string -> string) {
    i < |es| && Moved(es[i]) && es[i].receipt.value.Restorable() &&
    exists j :: i < j < |es| && Moved(es[j]) && SameName(es[i].receipt.value, es[j].receipt.value, fold)
  }

  function Exact(es: seq<Entry>): set<string> {
    set e | e in es && Moved(e) :: e.receipt.value.to
  }

  function Folded(es: seq<Entry>, fold: string -> string): set<string> {
    set e | e in es && Moved(e) :: fold(e.receipt.value.to)
  }

  lemma TakenIsReused(es: seq<Entry>, i: nat, fold: string -> string)
    requires i < |es| && Moved(es[i])
    ensures var r := es[i].receipt.value;
      Reused(es, i, fold) <==>
      r.Restorable() && if r.ino == 0 then fold(r.to) in Folded(es[i + 1..], fold) else r.to in Exact(es[i + 1..])
  {
    var r, later := es[i].receipt.value, es[i + 1..];
    if r.Restorable() && r.ino == 0 && fold(r.to) in Folded(later, fold) {
      var e :| e in later && Moved(e) && fold(e.receipt.value.to) == fold(r.to);
      var k :| 0 <= k < |later| && later[k] == e;
      assert es[i + 1 + k] == e;
    }
    if r.Restorable() && r.ino != 0 && r.to in Exact(later) {
      var e :| e in later && Moved(e) && e.receipt.value.to == r.to;
      var k :| 0 <= k < |later| && later[k] == e;
      assert es[i + 1 + k] == e;
    }
    if Reused(es, i, fold) {
      var j :| i < j < |es| && Moved(es[j]) && SameName(r, es[j].receipt.value, fold);
      assert later[j - i - 1] == es[j];
    }
  }

  lemma NamesFrom(es: seq<Entry>, i: nat, fold: string -> string)
    requires i < |es|
    ensures Exact(es[i..]) == Exact(es[i + 1..]) + if Moved(es[i]) then {es[i].receipt.value.to} else {}
    ensures Folded(es[i..], fold) ==
      Folded(es[i + 1..], fold) + if Moved(es[i]) then {fold(es[i].receipt.value.to)} else {}
  {
    assert es[i..] == [es[i]] + es[i + 1..];
  }

  /** The backward pass: the newest taker of each name is met first. */
  method MarkReused(es: seq<Entry>, fold: string -> string) returns (reused: seq<bool>)
    ensures |reused| == |es| && forall i | 0 <= i < |es| :: reused[i] <==> Reused(es, i, fold)
  {
    var exact: set<string>, folded: set<string> := {}, {};
    reused := [];
    var i := |es|;
    while i > 0
      invariant 0 <= i <= |es| && |reused| == |es| - i
      invariant exact == Exact(es[i..]) && folded == Folded(es[i..], fold)
      invariant forall k | i <= k < |es| :: reused[k - i] <==> Reused(es, k, fold)
    {
      i := i - 1;
      NamesFrom(es, i, fold);
      var again := false;
      if Moved(es[i]) {
        var r := es[i].receipt.value;
        TakenIsReused(es, i, fold);
        again := r.Restorable() && if r.ino == 0 then fold(r.to) in folded else r.to in exact;
        exact, folded := exact + {r.to}, folded + {fold(r.to)};
      }
      reused := [again] + reused;
    }
  }

  // ---- runs ----

  /** reused: the numbers of its moves whose name a later action took again. */
  datatype Run = Run(id: string, start: int, entries: seq<Entry>, reused: set<int>)

  function OfRun(es: seq<Entry>, id: string): seq<Entry> {
    if es == [] then []
    else OfRun(es[..|es| - 1], id) + if es[|es| - 1].run == id then [es[|es| - 1]] else []
  }

  function Earliest(es: seq<Entry>): int
    requires es != []
  {
    var last := es[|es| - 1].time;
    if |es| == 1 then last
    else var before := Earliest(es[..|es| - 1]); if last < before then last else before
  }

  /** Where the run's first entry stands in the journal. */
  function FirstAt(es: seq<Entry>, id: string): nat {
    if es == [] || es[0].run == id then 0 else 1 + FirstAt(es[1..], id)
  }

  ghost function ReusedOf(es: seq<Entry>, n: nat, id: string, fold: string -> string): set<int>
    requires n <= |es|
  {
    set i | 0 <= i < n && es[i].run == id && Reused(es, i, fold) :: es[i].num
  }

  ghost predicate IsRunOf(es: seq<Entry>, n: nat, fold: string -> string, r: Run)
    requires n <= |es|
  {
    && r.entries == OfRun(es[..n], r.id) && r.entries != []
    && r.start == Earliest(r.entries)
    && r.reused == ReusedOf(es, n, r.id, fold)
  }

  /** By start, then by first entry. */
  ghost predicate Before(first: string -> nat, a: Run, b: Run) {
    a.start < b.start || (a.start == b.start && first(a.id) < first(b.id))
  }

  ghost predicate Grouped(es: seq<Entry>, n: nat, fold: string -> string, byID: map<string, Run>)
    requires n <= |es|
  {
    && (forall id <- byID :: byID[id].id == id && IsRunOf(es, n, fold, byID[id]))
    && (forall i | 0 <= i < n :: es[i].run in byID)
  }

  ghost predicate InOrder(first: string -> nat, order: seq<string>) {
    forall i, j | 0 <= i < j < |order| :: first(order[i]) < first(order[j])
  }

  ghost predicate Listed(first: string -> nat, n: nat, ids: set<string>, order: seq<string>) {
    && (forall id :: id in ids <==> id in order)
    && InOrder(first, order)
    && (forall i | 0 <= i < |order| :: first(order[i]) < n)
  }

  lemma {:induction false} FirstAtIs(es: seq<Entry>, n: nat, id: string)
    requires n < |es| && es[n].run == id && forall i | 0 <= i < n :: es[i].run != id
    ensures FirstAt(es, id) == n
  {
    if n > 0 { FirstAtIs(es[1..], n - 1, id); }
  }

  lemma {:induction false} OfRunHas(es: seq<Entry>, id: string)
    ensures OfRun(es, id) == [] <==> forall i | 0 <= i < |es| :: es[i].run != id
  {
    if es != [] {
      var n := |es| - 1;
      OfRunHas(es[..n], id);
      assert es == es[..n] + [es[n]];
    }
  }

  /** A run under an id of its own is what the journal groups under it. */
  lemma {:induction false} OfRunAppended(prior: seq<Entry>, es: seq<Entry>, id: string)
    requires (forall i | 0 <= i < |prior| :: prior[i].run != id) && forall i | 0 <= i < |es| :: es[i].run == id
    ensures OfRun(prior + es, id) == es
  {
    if es == [] {
      assert prior + [] == prior;
      OfRunHas(prior, id);
    } else {
      var n := |es| - 1;
      OfRunAppended(prior, es[..n], id);
      assert (prior + es)[..|prior| + n] == prior + es[..n] && es == es[..n] + [es[n]];
    }
  }

  lemma OfRunNext(es: seq<Entry>, n: nat, id: string)
    requires n < |es|
    ensures OfRun(es[..n + 1], id) == OfRun(es[..n], id) + if es[n].run == id then [es[n]] else []
  {
    assert es[..n + 1][..n] == es[..n];
  }

  /** The run with one more entry. */
  function Extended(r: Run, e: Entry, again: bool): Run {
    Run(r.id, if e.time < r.start then e.time else r.start, r.entries + [e], r.reused + if again then {e.num} else {})
  }

  lemma ReusedNext(es: seq<Entry>, n: nat, id: string, fold: string -> string)
    requires n < |es|
    ensures ReusedOf(es, n + 1, id, fold) ==
      ReusedOf(es, n, id, fold) + if es[n].run == id && Reused(es, n, fold) then {es[n].num} else {}
  {
  }

  lemma ExtendedIs(es: seq<Entry>, n: nat, fold: string -> string, r: Run, again: bool)
    requires n < |es| && (again <==> Reused(es, n, fold))
    requires IsRunOf(es, n, fold, r) && es[n].run == r.id
    ensures IsRunOf(es, n + 1, fold, Extended(r, es[n], again))
  {
    OfRunNext(es, n, r.id);
    ReusedNext(es, n, r.id, fold);
    assert (r.entries + [es[n]])[..|r.entries|] == r.entries;
  }

  lemma OpenedIs(es: seq<Entry>, n: nat, fold: string -> string, again: bool)
    requires n < |es| && (again <==> Reused(es, n, fold))
    requires forall i | 0 <= i < n :: es[i].run != es[n].run
    ensures IsRunOf(es, n + 1, fold, Run(es[n].run, es[n].time, [es[n]], if again then {es[n].num} else {}))
  {
    OfRunNext(es, n, es[n].run);
    OfRunHas(es[..n], es[n].run);
    ReusedNext(es, n, es[n].run, fold);
  }

  lemma OthersSame(es: seq<Entry>, n: nat, fold: string -> string, r: Run)
    requires n < |es| && IsRunOf(es, n, fold, r) && es[n].run != r.id
    ensures IsRunOf(es, n + 1, fold, r)
  {
    OfRunNext(es, n, r.id);
    ReusedNext(es, n, r.id, fold);
  }

  /** The runs so far with one entry more. */
  function Joins(byID: map<string, Run>, e: Entry, again: bool): map<string, Run> {
    byID[e.run := if e.run in byID then Extended(byID[e.run], e, again)
                  else Run(e.run, e.time, [e], if again then {e.num} else {})]
  }

  lemma GroupedNext(es: seq<Entry>, n: nat, fold: string -> string, byID: map<string, Run>, again: bool)
    requires n < |es| && Grouped(es, n, fold, byID) && (again <==> Reused(es, n, fold))
    requires forall id <- byID :: id == byID[id].id
    ensures Grouped(es, n + 1, fold, Joins(byID, es[n], again))
  {
    var e, next := es[n], Joins(byID, es[n], again);
    if e.run in byID {
      ExtendedIs(es, n, fold, byID[e.run], again);
    } else {
      OpenedIs(es, n, fold, again);
    }
    forall id <- next ensures next[id].id == id && IsRunOf(es, n + 1, fold, next[id]) {
      if id != e.run { OthersSame(es, n, fold, byID[id]); }
    }
  }

  lemma ListedNext(first: string -> nat, n: nat, ids: set<string>, order: seq<string>, id: string)
    requires Listed(first, n, ids, order) && (id !in ids ==> first(id) == n)
    ensures Listed(first, n + 1, ids + {id}, if id in ids then order else order + [id])
  {
  }

  method Runs(es: seq<Entry>, fold: string -> string) returns (out: seq<Run>)
    ensures forall r <- out :: IsRunOf(es, |es|, fold, r)
    ensures forall i | 0 <= i < |es| :: exists r <- out :: r.id == es[i].run
    ensures Sorted(id => FirstAt(es, id), out)
  {
    var reused := MarkReused(es, fold);
    var byID: map<string, Run> := map[];
    var order: seq<string> := [];
    ghost var first := (id: string) => FirstAt(es, id);
    for n := 0 to |es|
      invariant Grouped(es, n, fold, byID) && Listed(first, n, byID.Keys, order)
    {
      var e := es[n];
      GroupedNext(es, n, fold, byID, reused[n]);
      if e.run !in byID { FirstAtIs(es, n, e.run); }
      ListedNext(first, n, byID.Keys, order, e.run);
      if e.run !in byID {
        order := order + [e.run];
      }
      byID := Joins(byID, e, reused[n]);
    }
    out := SortRuns(first, byID, order);
    forall i | 0 <= i < |es| ensures exists r <- out :: r.id == es[i].run {
      assert es[i].run in byID && byID[es[i].run] in out;
    }
  }

  ghost predicate Sorted(first: string -> nat, rs: seq<Run>) {
    forall i, j | 0 <= i < j < |rs| :: Before(first, rs[i], rs[j])
  }

  /** The stable sort by start: runs that start together stay in journal order. */
  method SortRuns(ghost first: string -> nat, byID: map<string, Run>, order: seq<string>) returns (out: seq<Run>)
    requires (forall id <- order :: id in byID) && (forall id <- byID :: byID[id].id == id) && InOrder(first, order)
    ensures forall id <- order :: byID[id] in out
    ensures forall r <- out :: r.id in byID && r == byID[r.id]
    ensures Sorted(first, out)
  {
    out := [];
    for n := 0 to |order|
      invariant forall id <- order[..n] :: byID[id] in out
      invariant forall r <- out :: r.id in order[..n] && r == byID[r.id]
      invariant Sorted(first, out)
    {
      assert order[..n + 1] == order[..n] + [order[n]];
      assert forall r <- out :: first(r.id) < first(order[n]);
      out := InsertRun(first, out, byID[order[n]]);
    }
    assert order[..|order|] == order;
  }

  method InsertRun(ghost first: string -> nat, rs: seq<Run>, r: Run) returns (out: seq<Run>)
    requires Sorted(first, rs) && forall q <- rs :: first(q.id) < first(r.id)
    ensures Sorted(first, out) && forall q :: q in out <==> q in rs || q == r
  {
    var k := |rs|;
    while k > 0 && r.start < rs[k - 1].start
      invariant 0 <= k <= |rs| && (k < |rs| ==> r.start < rs[k].start)
    {
      k := k - 1;
    }
    InsertedRun(first, rs, r, k);
    Holds(rs, r, k);
    out := rs[..k] + [r] + rs[k..];
  }

  lemma InsertedRun(first: string -> nat, rs: seq<Run>, r: Run, k: nat)
    requires Sorted(first, rs) && (forall i | 0 <= i < |rs| :: first(rs[i].id) < first(r.id)) && k <= |rs|
    requires (k > 0 ==> rs[k - 1].start <= r.start) && (k < |rs| ==> r.start < rs[k].start)
    ensures Sorted(first, rs[..k] + [r] + rs[k..])
  {
    forall i | 0 <= i < k ensures Before(first, rs[i], r) {
      if i < k - 1 { assert Before(first, rs[i], rs[k - 1]); }
    }
    forall i | k <= i < |rs| ensures Before(first, r, rs[i]) {
      if i > k { assert Before(first, rs[k], rs[i]); }
    }
    Between(Before, first, rs, r, k);
  }

  lemma Holds<T>(s: seq<T>, x: T, k: nat)
    requires k <= |s|
    ensures forall y :: y in s[..k] + [x] + s[k..] <==> y in s || y == x
  {
    assert s == s[..k] + s[k..];
  }

  lemma Between(less: (string -> nat, Run, Run) -> bool, first: string -> nat, rs: seq<Run>, r: Run, k: nat)
    requires k <= |rs| && forall i, j | 0 <= i < j < |rs| :: less(first, rs[i], rs[j])
    requires (forall i | 0 <= i < k :: less(first, rs[i], r)) && forall i | k <= i < |rs| :: less(first, r, rs[i])
    ensures var out := rs[..k] + [r] + rs[k..]; forall i, j | 0 <= i < j < |out| :: less(first, out[i], out[j])
  {
  }

  // ---- what can be undone ----

  function Undone(es: seq<Entry>): set<int> {
    set e | e in es && e.event == Undo && e.error == "" :: e.num
  }

  predicate CanUndo(e: Entry, undone: set<int>) {
    Moved(e) && e.receipt.value.Restorable() && e.num !in undone
  }

  /** The stable sort by number, highest first, one entry at a time. */
  function InsertDesc(s: seq<Entry>, e: Entry): seq<Entry> {
    if s != [] && s[0].num >= e.num then [s[0]] + InsertDesc(s[1..], e) else [e] + s
  }

  function PendingOf(es: seq<Entry>, undone: set<int>): seq<Entry> {
    if es == [] then []
    else
      var rest, e := PendingOf(es[..|es| - 1], undone), es[|es| - 1];
      if CanUndo(e, undone) then InsertDesc(rest, e) else rest
  }

  predicate Descending(s: seq<Entry>) {
    forall i, j | 0 <= i < j < |s| :: s[i].num >= s[j].num
  }

  lemma {:induction false} InsertDescHas(s: seq<Entry>, e: Entry)
    ensures multiset(InsertDesc(s, e)) == multiset(s) + multiset{e}
  {
    if s != [] && s[0].num >= e.num {
      InsertDescHas(s[1..], e);
      assert s == [s[0]] + s[1..];
    }
  }

  lemma {:induction false} InsertDescSorts(s: seq<Entry>, e: Entry)
    requires Descending(s)
    ensures Descending(InsertDesc(s, e))
  {
    if s != [] && s[0].num >= e.num {
      var rest := InsertDesc(s[1..], e);
      InsertDescSorts(s[1..], e);
      InsertDescHas(s[1..], e);
      forall k | 0 <= k < |rest| ensures s[0].num >= rest[k].num {
        assert rest[k] in multiset(s[1..]) + multiset{e};
      }
    }
  }

  /** The moves not undone, each once, last moved first. */
  lemma {:induction false} PendingHolds(es: seq<Entry>, undone: set<int>)
    ensures forall e :: multiset(PendingOf(es, undone))[e] == if CanUndo(e, undone) then multiset(es)[e] else 0
    ensures Descending(PendingOf(es, undone))
  {
    if es != [] {
      var n := |es| - 1;
      PendingHolds(es[..n], undone);
      assert es == es[..n] + [es[n]];
      if CanUndo(es[n], undone) {
        InsertDescHas(PendingOf(es[..n], undone), es[n]);
        InsertDescSorts(PendingOf(es[..n], undone), es[n]);
      }
    }
  }

  /** A line is pending, as often as it is there, exactly when it records a move that can be
      put back and no line of the journal says, without an error, that it was. */
  lemma PendingExactly(es: seq<Entry>)
    ensures forall e ::
      multiset(PendingOf(es, Undone(es)))[e] ==
      if e.event == Done && e.receipt.Some? && e.receipt.value.how != Export &&
         (forall x <- es :: !(x.event == Undo && x.num == e.num && x.error == ""))
      then multiset(es)[e] else 0
  {
    PendingHolds(es, Undone(es));
  }

  method InsertPending(s: seq<Entry>, e: Entry) returns (out: seq<Entry>)
    requires Descending(s)
    ensures out == InsertDesc(s, e)
  {
    var k := |s|;
    while k > 0 && s[k - 1].num < e.num
      invariant 0 <= k <= |s| && (k < |s| ==> s[k].num < e.num)
    {
      k := k - 1;
    }
    InsertedDesc(s, e, k);
    out := s[..k] + [e] + s[k..];
  }

  lemma {:induction false} InsertedDesc(s: seq<Entry>, e: Entry, k: nat)
    requires k <= |s| && (k < |s| ==> s[k].num < e.num) && (k > 0 ==> s[k - 1].num >= e.num)
    requires Descending(s)
    ensures s[..k] + [e] + s[k..] == InsertDesc(s, e)
  {
    if k > 0 {
      assert s[0].num >= s[k - 1].num;
      InsertedDesc(s[1..], e, k - 1);
      assert s[..k] + [e] + s[k..] == [s[0]] + (s[1..][..k - 1] + [e] + s[1..][k - 1..]);
    } else {
      assert s[..0] + [e] + s[0..] == [e] + s;
    }
  }

  method FindUndone(es: seq<Entry>) returns (undone: set<int>)
    ensures undone == Undone(es)
  {
    undone := {};
    for i := 0 to |es|
      invariant undone == Undone(es[..i])
    {
      assert es[..i + 1] == es[..i] + [es[i]];
      if es[i].event == Undo && es[i].error == "" {
        undone := undone + {es[i].num};
      }
    }
    assert es[..|es|] == es;
  }

  method Pending(r: Run) returns (out: seq<Entry>)
    ensures out == PendingOf(r.entries, Undone(r.entries))
  {
    var undone := FindUndone(r.entries);
    out := [];
    for i := 0 to |r.entries|
      invariant out == PendingOf(r.entries[..i], undone)
    {
      assert r.entries[..i + 1][..i] == r.entries[..i];
      if CanUndo(r.entries[i], undone) {
        PendingHolds(r.entries[..i], undone);
        out := InsertPending(out, r.entries[i]);
      }
    }
    assert r.entries[..|r.entries|] == r.entries;
  }

  /** Whether a move's copy may be put back: no later action took its name, and the
      disk still has it there. */
  predicate There(r: Run, gone: Receipt -> bool, e: Entry) {
    e.receipt.Some? && e.num !in r.reused && !gone(e.receipt.value)
  }

  function Those(r: Run, gone: Receipt -> bool, es: seq<Entry>, there: bool): seq<Entry> {
    if es == [] then []
    else Those(r, gone, es[..|es| - 1], there) + if There(r, gone, es[|es| - 1]) == there then [es[|es| - 1]] else []
  }

  method OnDisk(r: Run, gone: Receipt -> bool) returns (present: seq<Entry>, missing: seq<Entry>)
    ensures present == Those(r, gone, PendingOf(r.entries, Undone(r.entries)), true)
    ensures missing == Those(r, gone, PendingOf(r.entries, Undone(r.entries)), false)
  {
    var pending := Pending(r);
    present, missing := [], [];
    for i := 0 to |pending|
      invariant present == Those(r, gone, pending[..i], true) && missing == Those(r, gone, pending[..i], false)
    {
      assert pending[..i + 1][..i] == pending[..i];
      PendingMoved(r.entries, Undone(r.entries), pending[i]);
      if pending[i].num in r.reused || gone(pending[i].receipt.value) {
        missing := missing + [pending[i]];
      } else {
        present := present + [pending[i]];
      }
    }
    assert pending[..|pending|] == pending;
  }

  lemma PendingMoved(es: seq<Entry>, undone: set<int>, e: Entry)
    requires e in PendingOf(es, undone)
    ensures CanUndo(e, undone) && e in es
  {
    PendingHolds(es, undone);
    assert multiset(PendingOf(es, undone))[e] > 0;
  }

  // ---- history ----

  /** Where an action's bytes went. */
  datatype Went = FreesNow | AfterTrash | ToStaging | ToExport

  datatype Summary = Summary(id: string, start: int, done: nat, failed: nat, undone: nat, restorable: nat, prune: bool,
                             freesNow: int, afterTrash: int, staged: int, exported: int, rules: map<string, int>)
  {
    function Bytes(): int { freesNow + afterTrash + staged + exported }
  }

  /** The start line of an action, as known after the first n lines. */
  function PlannedAt(es: seq<Entry>, n: nat, num: int): Entry
    requires n <= |es|
  {
    if n == 0 then ZERO
    else if es[n - 1].event == Start && es[n - 1].num == num then es[n - 1]
    else PlannedAt(es, n - 1, num)
  }

  /** A done action counts what it deleted as measured, else its planned size. */
  function Sized(start: Entry, e: Entry): int {
    if e.pruned.Some? then e.pruned.value.bytes else if start.kind != Some(PruneKind) then start.bytes else 0
  }

  function WentTo(start: Entry, e: Entry): Went {
    var trashed := start.kind == Some(TrashKind) && e.receipt.Some?;
    if trashed && e.receipt.value.how == Finder then AfterTrash
    else if trashed && e.receipt.value.how == Staging then ToStaging
    else if e.receipt.Some? && e.receipt.value.how == Export then ToExport
    else FreesNow
  }

  predicate Counts(e: Entry, undone: set<int>) { e.event == Done && e.num !in undone }

  function Sum(es: seq<Entry>, undone: set<int>, n: nat, w: Went): int
    requires n <= |es|
  {
    if n == 0 then 0
    else
      var start, e := PlannedAt(es, n - 1, es[n - 1].num), es[n - 1];
      Sum(es, undone, n - 1, w) + if Counts(e, undone) && WentTo(start, e) == w then Sized(start, e) else 0
  }

  /** What one rule is credited with: sizes above zero only. */
  function RuleSum(es: seq<Entry>, undone: set<int>, n: nat, id: string): int
    requires n <= |es|
  {
    if n == 0 then 0
    else
      var start, e := PlannedAt(es, n - 1, es[n - 1].num), es[n - 1];
      RuleSum(es, undone, n - 1, id) + if Counts(e, undone) && start.ruleID == id && Sized(start, e) > 0
        then Sized(start, e) else 0
  }

  function Count(es: seq<Entry>, ev: Event): nat {
    if es == [] then 0 else Count(es[..|es| - 1], ev) + if es[|es| - 1].event == ev then 1 else 0
  }

  function Restored(es: seq<Entry>): nat {
    if es == [] then 0
    else Restored(es[..|es| - 1]) + if es[|es| - 1].event == Undo && es[|es| - 1].error == "" then 1 else 0
  }

  function StartNums(es: seq<Entry>): set<int> {
    set e | e in es && e.event == Start :: e.num
  }

  function Prunes(es: seq<Entry>): nat {
    if es == [] then 0
    else Prunes(es[..|es| - 1]) + if es[|es| - 1].event == Start && es[|es| - 1].kind == Some(PruneKind) then 1 else 0
  }

  /** start is the last start line with this number among the first n, an empty one when
      there is none. */
  ghost predicate StartOf(es: seq<Entry>, n: nat, num: int, start: Entry)
    requires n <= |es|
  {
    || (start == ZERO && forall i | 0 <= i < n :: !StartsIt(es[i], num))
    || (exists i: nat :: LastStart(es, n, num, start, i))
  }

  ghost predicate LastStart(es: seq<Entry>, n: nat, num: int, start: Entry, i: nat)
    requires n <= |es|
  {
    i < n && es[i] == start && StartsIt(start, num) && forall j | i < j < n :: !StartsIt(es[j], num)
  }

  predicate StartsIt(e: Entry, num: int) { e.event == Start && e.num == num }

  lemma {:induction false} StartFound(es: seq<Entry>, n: nat, num: int, start: Entry)
    requires n <= |es|
    ensures StartOf(es, n, num, start) <==> start == PlannedAt(es, n, num)
  {
    if n > 0 {
      StartFound(es, n - 1, num, start);
      if StartsIt(es[n - 1], num) {
        if start == es[n - 1] { assert LastStart(es, n, num, start, n - 1); }
      } else {
        StartStays(es, n - 1, n, num, start);
      }
    }
  }

  lemma StartStays(es: seq<Entry>, n: nat, m: nat, num: int, start: Entry)
    requires n < |es| && !StartsIt(es[n], num) && m == n + 1
    ensures StartOf(es, m, num, start) <==> StartOf(es, n, num, start)
  {
    if i: nat :| LastStart(es, m, num, start, i) { assert LastStart(es, n, num, start, i); }
    if i: nat :| LastStart(es, n, num, start, i) { assert LastStart(es, m, num, start, i); }
  }

  /** What each line adds to a bucket, and to a rule: one that says an action was done, and
      that is not undone, what it deleted as measured, else what its start line planned, a
      prune without a measure nothing. */
  lemma LineCounted(es: seq<Entry>, undone: set<int>, n: nat, start: Entry, w: Went, id: string)
    requires n < |es| && StartOf(es, n, es[n].num, start)
    ensures var counted := es[n].event == Done && es[n].num !in undone;
      var size :=
        if es[n].pruned.Some? then es[n].pruned.value.bytes
        else if start.kind == Some(PruneKind) then 0 else start.bytes;
      && Sum(es, undone, n + 1, w) - Sum(es, undone, n, w) ==
        (if counted && FallsInto(start, es[n], w) then size else 0)
      && RuleSum(es, undone, n + 1, id) - RuleSum(es, undone, n, id) ==
         (if counted && start.ruleID == id && size > 0 then size else 0)
    ensures Sum(es, undone, 0, w) == 0 && RuleSum(es, undone, 0, id) == 0
  {
    StartFound(es, n, es[n].num, start);
  }

  /** Moves by Finder free their bytes once the Trash is emptied, staged ones wait there, an
      export's stay beside it, and all else is free now. */
  predicate FallsInto(start: Entry, e: Entry, w: Went) {
    var how := if e.receipt.Some? then Some(e.receipt.value.how) else None;
    match w
    case AfterTrash => start.kind == Some(TrashKind) && how == Some(Finder)
    case ToStaging => start.kind == Some(TrashKind) && how == Some(Staging)
    case ToExport => how == Some(Export)
    case FreesNow => how == None || (how != Some(Export) && start.kind != Some(TrashKind))
  }

  function Value(m: map<string, int>, id: string): int { if id in m then m[id] else 0 }

  ghost predicate Summed(es: seq<Entry>, undone: set<int>, n: nat, s: Summary)
    requires n <= |es|
  {
    && s.freesNow == Sum(es, undone, n, FreesNow) && s.afterTrash == Sum(es, undone, n, AfterTrash)
    && s.staged == Sum(es, undone, n, ToStaging) && s.exported == Sum(es, undone, n, ToExport)
    && forall id :: Value(s.rules, id) == RuleSum(es, undone, n, id) && (id in s.rules ==> s.rules[id] > 0)
  }

  ghost predicate CountedTo(es: seq<Entry>, s: Summary) {
    s.done == Count(es, Done) && s.failed == Count(es, Fail) && s.undone == Restored(es)
  }

  /** The places of the lines of which this holds. */
  ghost function Places(es: seq<Entry>, holds: Entry -> bool): set<nat> {
    set i: nat | i < |es| && holds(es[i])
  }

  lemma PlacesNext(es: seq<Entry>, holds: Entry -> bool)
    requires es != []
    ensures |Places(es, holds)| == |Places(es[..|es| - 1], holds)| + if holds(es[|es| - 1]) then 1 else 0
  {
    var n := |es| - 1;
    var before := Places(es[..n], holds);
    assert forall i: nat | i < n :: es[..n][i] == es[i];
    assert Places(es, holds) == before + if holds(es[n]) then {n} else {};
  }

  /** The counts are of the lines that say so: done, failed, put back without an error, and
      the start lines of prunes. */
  lemma {:induction false} CountsExactly(es: seq<Entry>)
    ensures Count(es, Done) == |Places(es, (e: Entry) => e.event == Done)|
    ensures Count(es, Fail) == |Places(es, (e: Entry) => e.event == Fail)|
    ensures Restored(es) == |Places(es, (e: Entry) => e.event == Undo && e.error == "")|
    ensures Prunes(es) == |Places(es, (e: Entry) => e.event == Start && e.kind == Some(PruneKind))|
    ensures forall num :: num in StartNums(es) <==> exists e <- es :: e.event == Start && e.num == num
  {
    if es != [] {
      CountsExactly(es[..|es| - 1]);
      PlacesNext(es, (e: Entry) => e.event == Done);
      PlacesNext(es, (e: Entry) => e.event == Fail);
      PlacesNext(es, (e: Entry) => e.event == Undo && e.error == "");
      PlacesNext(es, (e: Entry) => e.event == Start && e.kind == Some(PruneKind));
    }
  }

  /** One done line joins its bucket and its rule. */
  function Credited(s: Summary, start: Entry, e: Entry): Summary {
    var bytes := Sized(start, e);
    var t := match WentTo(start, e)
      case AfterTrash => s.(afterTrash := s.afterTrash + bytes)
      case ToStaging => s.(staged := s.staged + bytes)
      case ToExport => s.(exported := s.exported + bytes)
      case FreesNow => s.(freesNow := s.freesNow + bytes);
    if bytes > 0 then t.(rules := s.rules[start.ruleID := Value(s.rules, start.ruleID) + bytes]) else t
  }

  lemma CreditedSums(es: seq<Entry>, undone: set<int>, n: nat, s: Summary, d: nat)
    requires n < |es| && Summed(es, undone, n, s) && Counts(es[n], undone)
    ensures Summed(es, undone, n + 1, Credited(s, PlannedAt(es, n, es[n].num), es[n]).(done := d))
  {
  }

  lemma SkippedSums(es: seq<Entry>, undone: set<int>, n: nat, s: Summary, t: Summary)
    requires n < |es| && Summed(es, undone, n, s) && !Counts(es[n], undone)
    requires t.(done := s.done, failed := s.failed, undone := s.undone) == s
    ensures Summed(es, undone, n + 1, t)
  {
  }

  /** What the loop keeps about the start lines met so far. */
  ghost predicate Starts(es: seq<Entry>, n: nat, planned: map<int, Entry>, prunes: nat)
    requires n <= |es|
  {
    && (forall num :: (if num in planned then planned[num] else ZERO) == PlannedAt(es, n, num))
    && planned.Keys == StartNums(es[..n]) && prunes == Prunes(es[..n])
  }

  lemma StartsNext(es: seq<Entry>, n: nat, planned: map<int, Entry>, prunes: nat)
    requires n < |es| && Starts(es, n, planned, prunes)
    ensures var e := es[n];
      if e.event == Start then Starts(es, n + 1, planned[e.num := e],
        prunes + if e.kind == Some(PruneKind) then 1 else 0)
      else Starts(es, n + 1, planned, prunes)
  {
    assert es[..n + 1] == es[..n] + [es[n]];
  }

  /** What one line of the run does to the summary, its start lines apart. */
  function AfterLine(s: Summary, start: Entry, e: Entry, undone: set<int>): Summary {
    match e.event
    case Done => (if e.num in undone then s else Credited(s, start, e)).(done := s.done + 1)
    case Fail => s.(failed := s.failed + 1)
    case Undo => if e.error == "" then s.(undone := s.undone + 1) else s
    case _ => s
  }

  lemma LineCounts(es: seq<Entry>, n: nat, undone: set<int>, start: Entry, s: Summary)
    requires n < |es| && CountedTo(es[..n], s)
    ensures CountedTo(es[..n + 1], AfterLine(s, start, es[n], undone))
  {
    assert es[..n + 1][..n] == es[..n];
  }

  lemma LineSums(es: seq<Entry>, n: nat, undone: set<int>, s: Summary)
    requires n < |es| && Summed(es, undone, n, s)
    ensures Summed(es, undone, n + 1, AfterLine(s, PlannedAt(es, n, es[n].num), es[n], undone))
  {
    if Counts(es[n], undone) {
      CreditedSums(es, undone, n, s, s.done + 1);
    } else {
      SkippedSums(es, undone, n, s, AfterLine(s, PlannedAt(es, n, es[n].num), es[n], undone));
    }
  }

  method SumLine(e: Entry, undone: set<int>, start: Entry, before: Summary) returns (s: Summary)
    ensures s == AfterLine(before, start, e, undone)
  {
    s := before;
    match e.event {
      case Fail => s := s.(failed := s.failed + 1);
      case Undo => if e.error == "" { s := s.(undone := s.undone + 1); }
      case Done =>
        s := s.(done := s.done + 1);
        if e.num !in undone { s := Credited(s, start, e); }
      case _ =>
    }
  }

  /** After the first n lines. */
  ghost predicate SummedTo(es: seq<Entry>, n: nat, undone: set<int>, planned: map<int, Entry>, prunes: nat,
                           s: Summary) {
    n <= |es| && CountedTo(es[..n], s) && Summed(es, undone, n, s) && Starts(es, n, planned, prunes)
  }

  lemma SummedNext(es: seq<Entry>, n: nat, undone: set<int>, planned: map<int, Entry>, prunes: nat, s: Summary,
                   start: Entry)
    requires n < |es| && SummedTo(es, n, undone, planned, prunes, s)
    requires start == if es[n].num in planned then planned[es[n].num] else ZERO
    ensures var e, t := es[n], AfterLine(s, start, es[n], undone);
      if e.event == Start then SummedTo(es, n + 1, undone, planned[e.num := e],
        prunes + (if e.kind == Some(PruneKind) then 1 else 0), t)
      else SummedTo(es, n + 1, undone, planned, prunes, t)
  {
    StartsNext(es, n, planned, prunes);
    LineCounts(es, n, undone, start, s);
    LineSums(es, n, undone, s);
  }

  method Summarize(r: Run, gone: Receipt -> bool) returns (s: Summary)
    ensures s.id == r.id && s.start == r.start
    ensures CountedTo(r.entries, s) && Summed(r.entries, Undone(r.entries), |r.entries|, s)
    ensures s.prune <==> Prunes(r.entries) > 0 && Prunes(r.entries) == |StartNums(r.entries)|
    ensures s.restorable == |Those(r, gone, PendingOf(r.entries, Undone(r.entries)), true)|
  {
    var undone := FindUndone(r.entries);
    var planned, prunes;
    s, planned, prunes := SumUp(r, undone);
    assert r.entries[..|r.entries|] == r.entries;
    var present, _ := OnDisk(r, gone);
    s := s.(prune := prunes > 0 && prunes == |planned.Keys|, restorable := |present|);
  }

  /** The loop over the lines. */
  method SumUp(r: Run, undone: set<int>) returns (s: Summary, planned: map<int, Entry>, prunes: nat)
    ensures s.id == r.id && s.start == r.start
    ensures SummedTo(r.entries, |r.entries|, undone, planned, prunes, s)
  {
    var es := r.entries;
    s, planned, prunes := Summary(r.id, r.start, 0, 0, 0, 0, false, 0, 0, 0, 0, map[]), map[], 0;
    for n := 0 to |es|
      invariant s.id == r.id && s.start == r.start
      invariant SummedTo(es, n, undone, planned, prunes, s)
    {
      var e := es[n];
      var start := if e.num in planned then planned[e.num] else ZERO;
      SummedNext(es, n, undone, planned, prunes, s, start);
      s := SumLine(e, undone, start, s);
      if e.event == Start {
        planned := planned[e.num := e];
        prunes := prunes + if e.kind == Some(PruneKind) then 1 else 0;
      }
    }
  }
}
