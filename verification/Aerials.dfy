// Aerial picks off and on: a crash-safe protocol over a root-only database
// and a record file. internal/aerials/aerials.go.
module Aerials {
  import opened Catalog

  // ---- the database ----

  /** A row of one of the join tables, by primary keys. */
  datatype Row = Row(table: string, item: int, user: int)

  /** The rows, and the identifiers behind the keys. */
  datatype Db = Db(rows: set<Row>, items: map<(string, int), string>, users: map<int, string>)

  datatype Pick = Pick(table: string, item: int, user: int, itemID: string, userID: string)

  /** What gone and union compare picks by; it survives a renumbering. */
  datatype ID = ID(table: string, itemID: string, userID: string)

  const TABLES: set<string> := {"Z_2ACTIVEFORUSERS", "Z_3ACTIVEFORUSERS", "Z_1PINNEDFORUSERS"}

  function RowOf(p: Pick): Row { Row(p.table, p.item, p.user) }

  function IDOf(p: Pick): ID { ID(p.table, p.itemID, p.userID) }

  function IDs(ps: seq<Pick>): set<ID> { set p | p in ps :: IDOf(p) }

  function ReadRow(db: Db, r: Row): Pick {
    Pick(r.table, r.item, r.user,
         if (r.table, r.item) in db.items then db.items[(r.table, r.item)] else "",
         if r.user in db.users then db.users[r.user] else "")
  }

  /** The picks as sqlite3 prints them, each row once, in some order. */
  ghost predicate Reads(db: Db, ps: seq<Pick>) {
    (forall p :: p in ps <==> RowOf(p) in db.rows && p == ReadRow(db, RowOf(p)))
  }

  function Present(db: Db): set<ID> { set r | r in db.rows :: IDOf(ReadRow(db, r)) }

  predicate IdentChar(c: char) {
    'A' <= c <= 'Z' || 'a' <= c <= 'z' || '0' <= c <= '9' || c in "._-"
  }

  predicate Identifier(s: string) {
    s != "" && forall i | 0 <= i < |s| :: IdentChar(s[i])
  }

  predicate CarryableID(id: ID) {
    id.table in TABLES && Identifier(id.itemID) && Identifier(id.userID)
  }

  predicate Carryable(p: Pick) { CarryableID(IDOf(p)) }

  ghost predicate PlainChar(c: char) {
    'A' <= c <= 'Z' || 'a' <= c <= 'z' || '0' <= c <= '9' || c == '.' || c == '_' || c == '-'
  }

  /** A pick is carried exactly when macOS has its table and its identifiers are letters,
      digits, dots, dashes and underscores: nothing that ends the string they are quoted in. */
  lemma CarriedExactly(p: Pick)
    ensures Carryable(p) <==>
      && (p.table == "Z_2ACTIVEFORUSERS" || p.table == "Z_3ACTIVEFORUSERS" || p.table == "Z_1PINNEDFORUSERS")
      && p.itemID != "" && p.userID != ""
      && (forall c <- p.itemID :: PlainChar(c)) && forall c <- p.userID :: PlainChar(c)
  {
    assert "._-" == ['.', '_', '-'];
    IdentifierExactly(p.itemID);
    IdentifierExactly(p.userID);
  }

  lemma IdentifierExactly(s: string)
    ensures Identifier(s) <==> s != "" && forall c <- s :: PlainChar(c)
  {
    assert "._-" == ['.', '_', '-'];
    assert forall c :: IdentChar(c) <==> PlainChar(c);
    if Identifier(s) {
      forall c <- s ensures PlainChar(c) {
        var i :| 0 <= i < |s| && s[i] == c;
        assert IdentChar(s[i]);
      }
    }
    if forall c <- s :: PlainChar(c) {
      forall i | 0 <= i < |s| ensures IdentChar(s[i]) { assert s[i] in s; }
    }
  }

  /** The two root transactions, each committed whole or not at all. */
  datatype Tx = OffTx(picks: seq<Pick>) | OnTx(picks: seq<Pick>)

  function OffRows(picks: seq<Pick>): set<Row> { set p | p in picks :: RowOf(p) }

  /** The row's item and user are in the catalogue. */
  predicate Known(db: Db, r: Row) { (r.table, r.item) in db.items && r.user in db.users }

  /** Each carryable pick, by every item and user row its identifiers name. */
  function OnRows(db: Db, picks: seq<Pick>): set<Row> {
    set p, i, u | p in picks && Carryable(p) && i in db.items && i.0 == p.table && db.items[i] == p.itemID
                  && u in db.users && db.users[u] == p.userID :: Row(p.table, i.1, u)
  }

  function Apply(tx: Tx, db: Db): Db {
    match tx
    case OffTx(picks) => db.(rows := db.rows - OffRows(picks))
    case OnTx(picks) => db.(rows := db.rows + OnRows(db, picks))
  }

  // ---- gone, missing and union ----

  function GoneFrom(recorded: seq<Pick>, have: set<ID>): (out: seq<Pick>)
    ensures forall p :: p in out <==> p in recorded && IDOf(p) !in have
  {
    if recorded == [] then [] else
      var last := recorded[|recorded| - 1];
      GoneFrom(recorded[..|recorded| - 1], have) + (if IDOf(last) in have then [] else [last])
  }

  method Gone(recorded: seq<Pick>, now: seq<Pick>) returns (out: seq<Pick>)
    ensures out == GoneFrom(recorded, IDs(now))
  {
    var have: set<ID> := {};
    for i := 0 to |now|
      invariant have == IDs(now[..i])
    {
      assert now[..i + 1] == now[..i] + [now[i]];
      have := have + {IDOf(now[i])};
    }
    assert now[..|now|] == now;
    out := [];
    for i := 0 to |recorded|
      invariant out == GoneFrom(recorded[..i], have)
    {
      assert recorded[..i + 1][..i] == recorded[..i];
      if IDOf(recorded[i]) !in have {
        out := out + [recorded[i]];
      }
    }
    assert recorded[..|recorded|] == recorded;
  }

  /** Every identity of both, a's picks first, then b's that a lacks, each once. */
  ghost predicate UnionOf(a: seq<Pick>, b: seq<Pick>, out: seq<Pick>) {
    && a <= out && IDs(out) == IDs(a) + IDs(b)
    && (forall p <- out :: p in a || (p in b && IDOf(p) !in IDs(a)))
    && (forall i, j | |a| <= i < j < |out| :: IDOf(out[i]) != IDOf(out[j]))
  }

  lemma IDsNext(ps: seq<Pick>, p: Pick)
    ensures IDs(ps + [p]) == IDs(ps) + {IDOf(p)}
  {
  }

  lemma UnionNext(a: seq<Pick>, b: seq<Pick>, p: Pick, out: seq<Pick>)
    requires UnionOf(a, b, out)
    ensures UnionOf(a, b + [p], if IDOf(p) in IDs(out) then out else out + [p])
  {
    IDsNext(b, p);
    if IDOf(p) !in IDs(out) {
      IDsNext(out, p);
      forall i | 0 <= i < |out| ensures IDOf(out[i]) != IDOf(p) {
        assert out[i] in out;
      }
    }
  }

  /** Everything in a, followed by what b adds. */
  method Union(a: seq<Pick>, b: seq<Pick>) returns (out: seq<Pick>)
    ensures UnionOf(a, b, out)
  {
    out := a;
    for k := 0 to |b|
      invariant UnionOf(a, b[..k], out)
    {
      assert b[..k + 1] == b[..k] + [b[k]];
      UnionNext(a, b[..k], b[k], out);
      var missing := Gone([b[k]], out);
      OneGone(b[k], IDs(out));
      if |missing| == 1 {
        out := out + [b[k]];
      }
    }
    assert b[..|b|] == b;
  }

  lemma OneGone(p: Pick, have: set<ID>)
    ensures GoneFrom([p], have) == if IDOf(p) in have then [] else [p]
  {
    assert [p][..0] == [];
  }

  // ---- the protocol as atomic steps ----

  datatype Record = Record(picks: seq<Pick>, restored: bool)

  predicate Waiting(r: Option<Record>) {
    r.Some? && !r.value.restored && r.value.picks != []
  }

  /** The picks an on can still put back. */
  function WaitingIDs(r: Option<Record>): set<ID> {
    if Waiting(r) then IDs(r.value.picks) else {}
  }

  /** The root step's exit status: 0, 1, 2, or anything else, none included. */
  datatype Status = Done | Nothing | Lived | Unclear

  /** Where an off or on that holds the record lock stands. */
  datatype Op =
    | Idle
    | OffRead(picks: seq<Pick>, prev: Option<Record>)
    | OffRecorded(picks: seq<Pick>, prev: Option<Record>)
    | OnRead(prev: Option<Record>)
    | Running(tx: Tx, prev: Option<Record>, committed: bool)
    | Ended(tx: Tx, prev: Option<Record>, status: Status)
    | OnLooked(prev: Option<Record>, mark: bool)

  /** owed: the carryable picks an off's transaction deleted that have not been in
      the database since, nor tried by a committed on. late: a root step that
      outlived its regrow and has not committed. */
  datatype State = State(db: Db, record: Option<Record>, op: Op, late: Option<Tx>, owed: set<ID>)

  function Deleted(db: Db, tx: Tx): set<ID> {
    if tx.OnTx? then {} else
      set r | r in OffRows(tx.picks) && r in db.rows && CarryableID(IDOf(ReadRow(db, r))) :: IDOf(ReadRow(db, r))
  }

  function Tried(tx: Tx): set<ID> {
    if tx.OffTx? then {} else set p | p in tx.picks && Carryable(p) :: IDOf(p)
  }

  /** What a database change leaves owed. */
  function Owing(owed: set<ID>, db: Db): set<ID> { owed - Present(db) }

  function Commit(s: State, tx: Tx): State {
    var db := Apply(tx, s.db);
    s.(db := db, owed := Owing((s.owed + Deleted(s.db, tx)) - Tried(tx), db))
  }

  /** What the status says about the transaction, by the scripts' exit lines. */
  predicate Tells(tx: Tx, status: Status, committed: bool) {
    && (status == Nothing ==> !committed)
    && (status == Done ==> committed)
    && (status == Lived ==> tx.OffTx? && committed)
  }

  /** Exit 1 tells that nothing was done, 0 that all was, 2 that an off was though its downloader
      lives on, any other nothing. */
  lemma ExitTells(tx: Tx, status: Status, committed: bool)
    ensures Tells(tx, status, committed) <==>
      match status
      case Nothing => !committed
      case Done => committed
      case Lived => committed && tx.OffTx?
      case Unclear => true
  {
  }

  /** The keys an uncommitted off would delete by still name the picks it read. */
  predicate SameRows(db: Db, picks: seq<Pick>) {
    forall p <- picks | RowOf(p) in db.rows :: IDOf(ReadRow(db, RowOf(p))) == IDOf(p)
  }

  ghost function Pending(s: State): seq<Pick> {
    (match s.op
     case OffRead(picks, _) => picks
     case OffRecorded(picks, _) => picks
     case Running(OffTx(picks), _, false) => picks
     case _ => [])
    + (if s.late.Some? && s.late.value.OffTx? then s.late.value.picks else [])
  }

  datatype Event =
    | BeginOff(picks: seq<Pick>)
    | WriteRecord(union: seq<Pick>, ok: bool)
    | BeginOn
    | Start
    | NotStarted
    | Commits
    | Ends(status: Status, lives: bool)
    | FinishOff(ok: bool)
    | Looks(after: Option<seq<Pick>>)
    | FinishOn(ok: bool)
    | Stops(lives: bool)
    | LateCommits
    | LateDies
    | Elsewhere(db: Db)

  /** The record an off writes: the waiting one's picks beside the new ones. */
  ghost predicate Merged(prev: Option<Record>, picks: seq<Pick>, all: seq<Pick>) {
    if Waiting(prev) then IDs(all) == IDs(prev.value.picks) + IDs(picks) && prev.value.picks <= all else all == picks
  }

  /** When an on marks its record: the step exited 0, or, its status leaving open what
      it did, all the picks it could carry are seen in the database. */
  predicate Marks(rec: Record, status: Status, after: Option<seq<Pick>>) {
    status == Done ||
    (status != Nothing && after.Some? && forall p | p in rec.picks && Carryable(p) :: IDOf(p) in IDs(after.value))
  }

  ghost predicate Step(s: State, e: Event, t: State) {
    match e
    case BeginOff(picks) =>
      // A step stopped earlier has committed by now, or never will.
      s.op == Idle && Reads(s.db, picks) && picks != [] && t == s.(op := OffRead(picks, s.record), late := None)
    case WriteRecord(all, ok) =>
      s.op.OffRead? && Merged(s.op.prev, s.op.picks, all) &&
      t == if ok then s.(record := Some(Record(all, false)), op := OffRecorded(s.op.picks, s.op.prev))
        else s.(op := Idle)
    case BeginOn =>
      s.op == Idle && Waiting(s.record) && (exists p <- s.record.value.picks :: Carryable(p)) &&
      t == s.(op := OnRead(s.record), late := None)
    case Start =>
      (s.op.OffRecorded? && t == s.(op := Running(OffTx(s.op.picks), s.op.prev, false))) ||
      (s.op.OnRead? && s.op.prev.Some? && t == s.(op := Running(OnTx(s.op.prev.value.picks), s.op.prev, false)))
    case NotStarted =>
      (s.op.OffRecorded? && t == s.(op := Ended(OffTx(s.op.picks), s.op.prev, Nothing))) ||
      (s.op.OnRead? && s.op.prev.Some? && t == s.(op := Ended(OnTx(s.op.prev.value.picks), s.op.prev, Nothing)))
    case Commits =>
      s.op.Running? && !s.op.committed && t == Commit(s, s.op.tx).(op := s.op.(committed := true))
    case Ends(status, lives) =>
      s.op.Running? && Tells(s.op.tx, status, s.op.committed) && (lives ==> status == Unclear && !s.op.committed) &&
      t == s.(op := Ended(s.op.tx, s.op.prev, status), late := if lives then Some(s.op.tx) else None)
    case FinishOff(ok) =>
      s.op.Ended? && s.op.tx.OffTx? &&
      t == s.(op := Idle, record := if s.op.status == Nothing && ok then s.op.prev else s.record)
    case Looks(after) =>
      s.op.Ended? && s.op.tx.OnTx? && s.op.prev.Some? && (after.Some? ==> Reads(s.db, after.value)) &&
      t == s.(op := OnLooked(s.op.prev, Marks(s.op.prev.value, s.op.status, after)))
    case FinishOn(ok) =>
      s.op.OnLooked? && s.op.prev.Some? &&
      t == s.(op := Idle, record := if s.op.mark && ok then Some(s.op.prev.value.(restored := true)) else s.record)
    case Stops(lives) =>
      s.op != Idle && (lives ==> s.op.Running? && !s.op.committed) &&
      t == s.(op := Idle, late := if lives then Some(s.op.tx) else s.late)
    case LateCommits =>
      s.late.Some? && t == Commit(s, s.late.value).(late := None)
    case LateDies =>
      t == s.(late := None)
    case Elsewhere(db) =>
      SameRows(db, Pending(s)) && t == s.(db := db, owed := Owing(s.owed, db))
  }

  // ---- the inductive invariant ----

  ghost predicate OpInv(s: State) {
    match s.op
    case Idle => true
    case OffRead(picks, prev) => picks != [] && prev == s.record && s.late.None?
    case OffRecorded(picks, prev) => Kept(s, picks, prev) && s.owed <= WaitingIDs(prev) && s.late.None?
    case OnRead(prev) => prev == s.record && Waiting(prev) && s.late.None?
    case Running(OffTx(picks), prev, committed) =>
      Kept(s, picks, prev) && (!committed ==> s.owed <= WaitingIDs(prev)) && s.late.None?
    case Running(OnTx(picks), prev, committed) =>
      prev == s.record && Waiting(prev) && picks == prev.value.picks && (committed ==> s.owed == {}) && s.late.None?
    case Ended(OffTx(picks), prev, status) =>
      Kept(s, picks, prev) && (status == Nothing ==> s.owed <= WaitingIDs(prev) && s.late.None?)
    case Ended(OnTx(picks), prev, status) =>
      prev == s.record && Waiting(prev) && (status == Done ==> s.owed == {}) && (s.late.Some? ==> s.late.value.OnTx?)
    case OnLooked(prev, mark) =>
      prev == s.record && Waiting(prev) && (mark ==> s.owed == {}) && (s.late.Some? ==> s.late.value.OnTx?)
  }

  /** The record on disk keeps these picks, and the ones prev was waiting with. */
  ghost predicate Kept(s: State, picks: seq<Pick>, prev: Option<Record>) {
    Waiting(s.record) && IDs(picks) <= IDs(s.record.value.picks) && WaitingIDs(prev) <= IDs(s.record.value.picks)
  }

  /** What holds whatever other programs do to the database, while no off's commit
      deletes what is not recorded. */
  ghost predicate OwedInv(s: State) {
    && s.owed <= WaitingIDs(s.record)
    && s.owed !! Present(s.db)
    && (forall id <- s.owed :: CarryableID(id))
    && (s.late.Some? && s.late.value.OffTx? ==> IDs(s.late.value.picks) <= WaitingIDs(s.record))
    && OpInv(s)
  }

  ghost predicate Inv(s: State) {
    OwedInv(s) && SameRows(s.db, Pending(s))
  }

  /** The transaction this step commits. */
  function Committing(s: State, e: Event): Option<Tx> {
    match e
    case Commits => if s.op.Running? then Some(s.op.tx) else None
    case LateCommits => s.late
    case _ => None
  }

  /** An off that commits deletes nothing but what is recorded or still there. */
  ghost predicate Recorded(s: State, e: Event) {
    Committing(s, e).Some? && Committing(s, e).value.OffTx? ==>
      var tx := Committing(s, e).value;
      Deleted(s.db, tx) - Present(Apply(tx, s.db)) <= WaitingIDs(s.record)
  }

  lemma DeletedAreRecorded(db: Db, picks: seq<Pick>)
    requires SameRows(db, picks)
    ensures Deleted(db, OffTx(picks)) <= IDs(picks)
  {
    forall id <- Deleted(db, OffTx(picks)) ensures id in IDs(picks) {
      var r :| r in OffRows(picks) && r in db.rows && id == IDOf(ReadRow(db, r));
      var p :| p in picks && RowOf(p) == r;
    }
  }

  /** A committed on has tried every carryable pick of its record. */
  lemma TriedAreAll(owed: set<ID>, picks: seq<Pick>)
    requires owed <= IDs(picks) && forall id <- owed :: CarryableID(id)
    ensures owed - Tried(OnTx(picks)) == {}
  {
    forall id <- owed ensures id in Tried(OnTx(picks)) {
      var p :| p in picks && IDOf(p) == id;
    }
  }

  /** Once the picks are read back whole, everything owed is in the database. */
  lemma LookedAtAll(s: State, rec: Record, after: seq<Pick>)
    requires s.owed <= IDs(rec.picks) && forall id <- s.owed :: CarryableID(id)
    requires Reads(s.db, after) && forall p | p in rec.picks && Carryable(p) :: IDOf(p) in IDs(after)
    ensures s.owed <= Present(s.db)
  {
    forall id <- s.owed ensures id in Present(s.db) {
      var p :| p in rec.picks && IDOf(p) == id;
      var q :| q in after && IDOf(q) == IDOf(p);
      assert RowOf(q) in s.db.rows;
    }
  }

  lemma CommitKeeps(s: State, tx: Tx)
    requires OwedInv(s) && (tx.OffTx? ==> Deleted(s.db, tx) - Present(Apply(tx, s.db)) <= WaitingIDs(s.record))
    ensures var t := Commit(s, tx);
      t.owed <= WaitingIDs(s.record) && t.owed !! Present(t.db) && (forall id <- t.owed :: CarryableID(id))
  {
  }

  /** A step of the same machine, but that another program may do anything. */
  ghost predicate LooseStep(s: State, e: Event, t: State) {
    if e.Elsewhere? then t == s.(db := e.db, owed := Owing(s.owed, e.db)) else Step(s, e, t)
  }

  lemma LooseStepKeeps(s: State, e: Event, t: State)
    requires OwedInv(s) && LooseStep(s, e, t) && Recorded(s, e)
    ensures OwedInv(t)
  {
    match e
    case Commits =>
      CommitKeeps(s, s.op.tx);
      if s.op.tx.OnTx? { TriedAreAll(s.owed, s.op.tx.picks); }
    case LateCommits =>
      CommitKeeps(s, s.late.value);
    case Looks(after) =>
      if s.op.status != Done && t.op.mark {
        LookedAtAll(s, s.op.prev.value, after.value);
        assert s.owed == s.owed * Present(s.db);
      }
    case _ =>
  }

  lemma StepKeeps(s: State, e: Event, t: State)
    requires Inv(s) && Step(s, e, t)
    ensures Inv(t)
  {
    if Committing(s, e).Some? && Committing(s, e).value.OffTx? {
      DeletedAreRecorded(s.db, Committing(s, e).value.picks);
    }
    LooseStepKeeps(s, e, t);
  }

  // ---- every run ----

  ghost predicate IsRun(run: seq<State>, evs: seq<Event>) {
    && |run| == |evs| + 1
    && forall i | 0 <= i < |evs| :: Step(run[i], evs[i], run[i + 1])
  }

  /** Nothing pending, nothing owed. */
  predicate Initial(s: State) {
    s.op == Idle && s.late.None? && s.owed == {}
  }

  lemma {:induction false} RunKeeps(run: seq<State>, evs: seq<Event>, n: nat)
    requires IsRun(run, evs) && Initial(run[0]) && n < |run|
    ensures Inv(run[n])
  {
    if n > 0 {
      RunKeeps(run, evs, n - 1);
      StepKeeps(run[n - 1], evs[n - 1], run[n]);
    }
  }

  /** No pick is lost: a carryable pick that step i's transaction deleted is, after
      any later step n, in a record that is waiting, unless between them it was in
      the database again or a committed on tried it. */
  lemma {:induction false} NoPickLost(run: seq<State>, evs: seq<Event>, i: nat, n: nat, id: ID)
    requires IsRun(run, evs) && Initial(run[0]) && i < n < |run|
    requires Committing(run[i], evs[i]).Some? && id in Deleted(run[i].db, Committing(run[i], evs[i]).value)
    ensures || id in WaitingIDs(run[n].record)
            || (exists k :: i < k <= n && id in Present(run[k].db))
            || (exists k ::
                 i < k < n && Committing(run[k], evs[k]).Some? && id in Tried(Committing(run[k], evs[k]).value))
  {
    RunKeeps(run, evs, n);
    StillOwed(run, evs, i, n, id);
  }

  lemma {:induction false} StillOwed(run: seq<State>, evs: seq<Event>, i: nat, n: nat, id: ID)
    requires IsRun(run, evs) && i < n < |run|
    requires Committing(run[i], evs[i]).Some? && id in Deleted(run[i].db, Committing(run[i], evs[i]).value)
    ensures || id in run[n].owed
            || (exists k :: i < k <= n && id in Present(run[k].db))
            || (exists k ::
                 i < k < n && Committing(run[k], evs[k]).Some? && id in Tried(Committing(run[k], evs[k]).value))
  {
    assert Step(run[n - 1], evs[n - 1], run[n]);
    if n > i + 1 { StillOwed(run, evs, i, n - 1, id); }
  }

  // ---- what on gives back ----

  /** The catalogue still has the pick's item and its user. */
  predicate Catalogued(db: Db, p: Pick) {
    && (exists k <- db.items :: k.0 == p.table && db.items[k] == p.itemID)
    && (exists u <- db.users :: db.users[u] == p.userID)
  }

  /** What on counts as missing is exactly what was not there and could not be
      carried or was no longer catalogued; so an off and a later on that both
      exit 0 give back every carryable pick the catalogue still has. */
  lemma MissingExactly(db: Db, rec: seq<Pick>, after: seq<Pick>, p: Pick)
    requires p in rec && Reads(Apply(OnTx(rec), db), after)
    ensures p in GoneFrom(rec, IDs(after)) <==> IDOf(p) !in Present(db) && !(Carryable(p) && Catalogued(db, p))
  {
    var db1 := Apply(OnTx(rec), db);
    AfterIsPresent(db1, after);
    if Carryable(p) && Catalogued(db, p) { IsPutBack(db, rec, p); }
    if IDOf(p) in Present(db) { StillThere(db, rec, p); }
    if IDOf(p) in Present(db1) && IDOf(p) !in Present(db) { OnlyPutBack(db, rec, p); }
  }

  lemma IsPutBack(db: Db, rec: seq<Pick>, p: Pick)
    requires p in rec && Carryable(p) && Catalogued(db, p)
    ensures IDOf(p) in Present(Apply(OnTx(rec), db))
  {
    var k :| k in db.items && k.0 == p.table && db.items[k] == p.itemID;
    var u :| u in db.users && db.users[u] == p.userID;
    var r, db1 := Row(p.table, k.1, u), Apply(OnTx(rec), db);
    assert r in OnRows(db, rec) && r in db1.rows && IDOf(ReadRow(db1, r)) == IDOf(p);
  }

  lemma StillThere(db: Db, rec: seq<Pick>, p: Pick)
    requires IDOf(p) in Present(db)
    ensures IDOf(p) in Present(Apply(OnTx(rec), db))
  {
    var r :| r in db.rows && IDOf(ReadRow(db, r)) == IDOf(p);
    var db1 := Apply(OnTx(rec), db);
    assert r in db1.rows && ReadRow(db1, r) == ReadRow(db, r);
  }

  lemma OnlyPutBack(db: Db, rec: seq<Pick>, p: Pick)
    requires IDOf(p) in Present(Apply(OnTx(rec), db)) && IDOf(p) !in Present(db)
    ensures Carryable(p) && Catalogued(db, p)
  {
    var db1 := Apply(OnTx(rec), db);
    var r :| r in db1.rows && IDOf(ReadRow(db1, r)) == IDOf(p);
    assert ReadRow(db1, r) == ReadRow(db, r) && r in OnRows(db, rec);
    PutBackRow(db, rec, r, p);
  }

  lemma AfterIsPresent(db: Db, after: seq<Pick>)
    requires Reads(db, after)
    ensures IDs(after) == Present(db)
  {
    forall id <- Present(db) ensures id in IDs(after) {
      var r :| r in db.rows && IDOf(ReadRow(db, r)) == id;
      assert ReadRow(db, r) in after;
    }
    forall id <- IDs(after) ensures id in Present(db) {
      var p :| p in after && IDOf(p) == id;
      assert RowOf(p) in db.rows;
    }
  }

  lemma PutBackRow(db: Db, rec: seq<Pick>, r: Row, p: Pick)
    requires r in OnRows(db, rec) && IDOf(ReadRow(db, r)) == IDOf(p)
    ensures Carryable(p) && Catalogued(db, p)
  {
    var q, i, u :| q in rec && Carryable(q) && i in db.items && i.0 == q.table && db.items[i] == q.itemID
      && u in db.users && db.users[u] == q.userID && r == Row(q.table, i.1, u);
    assert IDOf(q) == IDOf(p);
    assert i in db.items && i.0 == p.table && db.items[i] == p.itemID;
    assert u in db.users && db.users[u] == p.userID;
  }

  ghost predicate UniqueIdentifiers(db: Db) {
    && (forall i, j | i in db.items && j in db.items && i.0 == j.0 && db.items[i] == db.items[j] :: i == j)
    && (forall u, v | u in db.users && v in db.users && db.users[u] == db.users[v] :: u == v)
  }

  /** With the catalogue unchanged and its identifiers unique, on undoes off: the
      rows are the same ones, when each was catalogued under carryable identifiers. */
  lemma OnUndoesOff(db: Db, picks: seq<Pick>)
    requires Reads(db, picks) && UniqueIdentifiers(db)
    requires forall r <- db.rows :: Known(db, r) && Carryable(ReadRow(db, r))
    ensures Apply(OffTx(picks), db).rows == {}
    ensures Apply(OnTx(picks), Apply(OffTx(picks), db)) == db
  {
    var cleared := Apply(OffTx(picks), db);
    forall r <- db.rows ensures r in OffRows(picks) && r in OnRows(cleared, picks) {
      var p := ReadRow(db, r);
      assert p in picks && RowOf(p) == r;
      assert (r.table, r.item) in cleared.items && r.user in cleared.users;
    }
    assert cleared.rows == {};
    forall r <- OnRows(cleared, picks) ensures r in db.rows {
      var p, i, u :| p in picks && Carryable(p) && i in db.items && i.0 == p.table && db.items[i] == p.itemID
        && u in db.users && db.users[u] == p.userID && r == Row(p.table, i.1, u);
      assert RowOf(p) in db.rows && p == ReadRow(db, RowOf(p)) && Known(db, RowOf(p));
      assert i == (p.table, p.item) && u == p.user;
    }
  }

  // ---- runs in which other programs may do anything ----

  ghost predicate IsLooseRun(run: seq<State>, evs: seq<Event>) {
    && |run| == |evs| + 1
    && forall i | 0 <= i < |evs| :: LooseStep(run[i], evs[i], run[i + 1])
  }

  lemma {:induction false} LooseRunKeeps(run: seq<State>, evs: seq<Event>, n: nat)
    requires IsLooseRun(run, evs) && Initial(run[0]) && n < |run|
    requires forall i | 0 <= i < n :: Recorded(run[i], evs[i])
    ensures OwedInv(run[n])
  {
    if n > 0 {
      LooseRunKeeps(run, evs, n - 1);
      LooseStepKeeps(run[n - 1], evs[n - 1], run[n]);
    }
  }

  /** Such a run keeps all that is owed in a waiting record, after every step, exactly
      when no off in it commits a delete of what is neither recorded nor still there. */
  lemma AllKeptExactly(run: seq<State>, evs: seq<Event>)
    requires IsLooseRun(run, evs) && Initial(run[0])
    ensures (forall n | 0 <= n < |run| :: run[n].owed <= WaitingIDs(run[n].record)) <==>
            (forall i | 0 <= i < |evs| :: Recorded(run[i], evs[i]))
  {
    if forall i | 0 <= i < |evs| :: Recorded(run[i], evs[i]) {
      forall n | 0 <= n < |run| ensures run[n].owed <= WaitingIDs(run[n].record) { LooseRunKeeps(run, evs, n); }
    }
    if forall n | 0 <= n < |run| :: run[n].owed <= WaitingIDs(run[n].record) {
      forall i | 0 <= i < |evs| ensures Recorded(run[i], evs[i]) { KeptIsRecorded(run[i], evs[i], run[i + 1]); }
    }
  }

  lemma KeptIsRecorded(s: State, e: Event, t: State)
    requires LooseStep(s, e, t) && t.owed <= WaitingIDs(t.record)
    ensures Recorded(s, e)
  {
    if Committing(s, e).Some? && Committing(s, e).value.OffTx? {
      var tx := Committing(s, e).value;
      assert Deleted(s.db, tx) - Present(Apply(tx, s.db)) <= t.owed;
    }
  }

  /** An off deletes only identities it read exactly when each key it read that is still
      in the database names one of them, or a pick that cannot be carried. */
  lemma DeletesItsOwnExactly(db: Db, picks: seq<Pick>)
    ensures Deleted(db, OffTx(picks)) <= IDs(picks) <==>
      forall p <- picks | RowOf(p) in db.rows && CarryableID(IDOf(ReadRow(db, RowOf(p)))) ::
        IDOf(ReadRow(db, RowOf(p))) in IDs(picks)
  {
    if Deleted(db, OffTx(picks)) <= IDs(picks) {
      forall p <- picks | RowOf(p) in db.rows && CarryableID(IDOf(ReadRow(db, RowOf(p))))
        ensures IDOf(ReadRow(db, RowOf(p))) in IDs(picks)
      {
        assert RowOf(p) in OffRows(picks);
        assert IDOf(ReadRow(db, RowOf(p))) in Deleted(db, OffTx(picks));
      }
    } else {
      var id :| id in Deleted(db, OffTx(picks)) && id !in IDs(picks);
      var r :| r in OffRows(picks) && r in db.rows && CarryableID(IDOf(ReadRow(db, r))) && id == IDOf(ReadRow(db, r));
      var p :| p in picks && RowOf(p) == r;
    }
  }

  /** Why the keys must keep their meaning while an off is pending: in a run in which
      another program renumbers the rows between the read and the delete, the pick the
      off deletes is in no record, is not in the database, and was never tried. */
  lemma RenumberedPickIsLost() returns (run: seq<State>, evs: seq<Event>, id: ID)
    ensures |run| == 6 && |evs| == 5 && Initial(run[0]) && forall i | 0 <= i < 5 ::
      LooseStep(run[i], evs[i], run[i + 1])
    ensures evs[3].Elsewhere? && !SameRows(evs[3].db, Pending(run[3])) && forall i | 0 <= i < 5 && i != 3 ::
      !evs[i].Elsewhere?
    ensures evs[4] == Commits && Committing(run[4], evs[4]).Some?
      && id in Deleted(run[4].db, Committing(run[4], evs[4]).value)
    ensures CarryableID(id) && id !in WaitingIDs(run[5].record) && id !in Present(run[5].db) && id in run[5].owed
  {
    var table := "Z_1PINNEDFORUSERS";
    var row := Row(table, 1, 1);
    var db := Db({row}, map[(table, 1) := "A"], map[1 := "U"]);
    var renumbered := Db({row}, map[(table, 1) := "B"], map[1 := "U"]);
    var picks := [Pick(table, 1, 1, "A", "U")];
    id := ID(table, "B", "U");
    RenumberedRow(table, row, db, renumbered, picks);
    var s0 := State(db, None, Idle, None, {});
    var s1 := s0.(op := OffRead(picks, None));
    var s2 := s1.(record := Some(Record(picks, false)), op := OffRecorded(picks, None));
    var s3 := s2.(op := Running(OffTx(picks), None, false));
    var s4 := s3.(db := renumbered, owed := Owing({}, renumbered));
    var s5 := Commit(s4, OffTx(picks)).(op := Running(OffTx(picks), None, true));
    run, evs := [s0, s1, s2, s3, s4, s5],
      [BeginOff(picks), WriteRecord(picks, true), Start, Elsewhere(renumbered), Commits];
    assert IDs(picks) == {ID(table, "A", "U")};
  }

  lemma RenumberedRow(table: string, row: Row, db: Db, renumbered: Db, picks: seq<Pick>)
    requires table == "Z_1PINNEDFORUSERS" && row == Row(table, 1, 1)
    requires db == Db({row}, map[(table, 1) := "A"], map[1 := "U"])
    requires renumbered == Db({row}, map[(table, 1) := "B"], map[1 := "U"])
    requires picks == [Pick(table, 1, 1, "A", "U")]
    ensures Reads(db, picks) && !SameRows(renumbered, picks)
    ensures Deleted(renumbered, OffTx(picks)) == {ID(table, "B", "U")} && CarryableID(ID(table, "B", "U"))
    ensures Present(Apply(OffTx(picks), renumbered)) == {}
  {
    assert picks[0] in picks && RowOf(picks[0]) == row;
    assert ReadRow(renumbered, row) == Pick(table, 1, 1, "B", "U");
    assert OffRows(picks) == {row} && CarryableID(ID(table, "B", "U"));
    assert Apply(OffTx(picks), renumbered).rows == {};
  }

  // ---- an off, then an on ----

  /** The catalogue has an item and a user of these identifiers. */
  predicate Names(db: Db, id: ID) {
    && (exists k <- db.items :: k.0 == id.table && db.items[k] == id.itemID)
    && (exists u <- db.users :: db.users[u] == id.userID)
  }

  /** The pick is in the record that is waiting, and stays there whatever the operation
      under way comes to, unless an on tries it or finds it there. */
  ghost predicate StillWaiting(s: State, id: ID) {
    && id in WaitingIDs(s.record)
    && match s.op
       case OffRecorded(_, prev) => id in WaitingIDs(prev)
       case Running(OffTx(_), prev, _) => id in WaitingIDs(prev)
       case Ended(OffTx(_), prev, status) => status == Nothing ==> id in WaitingIDs(prev)
       case Running(OnTx(_), _, committed) => !committed
       case Ended(OnTx(_), _, status) => status != Done
       case OnLooked(_, mark) => !mark
       case _ => true
  }

  lemma StaysWaiting(s: State, e: Event, t: State, id: ID)
    requires Inv(s) && Step(s, e, t) && StillWaiting(s, id) && CarryableID(id)
    requires id !in Present(t.db) && !(Committing(s, e).Some? && id in Tried(Committing(s, e).value))
    ensures StillWaiting(t, id)
  {
    match e
    case Commits =>
      if s.op.tx.OnTx? { IsTried(s.op.tx.picks, id); }
    case Looks(after) =>
      if t.op.mark { LookedFor(s, s.op.prev.value, after, id); }
    case _ =>
  }

  lemma IsTried(picks: seq<Pick>, id: ID)
    requires id in IDs(picks) && CarryableID(id)
    ensures id in Tried(OnTx(picks))
  {
    var p :| p in picks && IDOf(p) == id;
  }

  /** A record marked after a read-back has each of its carryable picks there. */
  lemma LookedFor(s: State, rec: Record, after: Option<seq<Pick>>, id: ID)
    requires id in IDs(rec.picks) && CarryableID(id) && s.op.Ended? && s.op.status != Done
      && Marks(rec, s.op.status, after)
    requires after.Some? ==> Reads(s.db, after.value)
    ensures id in Present(s.db)
  {
    var p :| p in rec.picks && IDOf(p) == id;
    AfterIsPresent(s.db, after.value);
  }

  /** From a to n the pick was in the database at some point, or a committed on tried it. */
  ghost predicate BackOrTried(run: seq<State>, evs: seq<Event>, a: nat, n: nat, id: ID)
    requires IsRun(run, evs) && n < |run|
  {
    || (exists k :: a <= k <= n && id in Present(run[k].db))
    || exists k :: a <= k < n && Committing(run[k], evs[k]).Some? && id in Tried(Committing(run[k], evs[k]).value)
  }

  lemma {:induction false} WaitsOn(run: seq<State>, evs: seq<Event>, a: nat, n: nat, id: ID)
    requires IsRun(run, evs) && Initial(run[0]) && a <= n < |run| && CarryableID(id) && StillWaiting(run[a], id)
    ensures StillWaiting(run[n], id) || BackOrTried(run, evs, a, n, id)
  {
    if a < n {
      WaitsOn(run, evs, a, n - 1, id);
      if !BackOrTried(run, evs, a, n, id) { WaitsOneMore(run, evs, a, n, id); }
    }
  }

  lemma WaitsOneMore(run: seq<State>, evs: seq<Event>, a: nat, n: nat, id: ID)
    requires IsRun(run, evs) && Initial(run[0]) && a < n < |run| && CarryableID(id)
    requires StillWaiting(run[n - 1], id) || BackOrTried(run, evs, a, n - 1, id)
    requires !BackOrTried(run, evs, a, n, id)
    ensures StillWaiting(run[n], id)
  {
    NotYet(run, evs, a, n, id);
    RunKeeps(run, evs, n - 1);
    StaysWaiting(run[n - 1], evs[n - 1], run[n], id);
  }

  lemma NotYet(run: seq<State>, evs: seq<Event>, a: nat, n: nat, id: ID)
    requires IsRun(run, evs) && a < n < |run| && !BackOrTried(run, evs, a, n, id)
    ensures !BackOrTried(run, evs, a, n - 1, id) && Step(run[n - 1], evs[n - 1], run[n])
    ensures id !in Present(run[n].db)
    ensures !(Committing(run[n - 1], evs[n - 1]).Some? && id in Tried(Committing(run[n - 1], evs[n - 1]).value))
  {
  }

  /** In any run, once an off and a later on have both ended with exit 0: each carryable
      pick the off read, or found waiting, whose item and user the catalogue kept, has
      been back in the database between the two. */
  lemma OffThenOn(run: seq<State>, evs: seq<Event>, a: nat, b: nat, id: ID)
    requires IsRun(run, evs) && Initial(run[0]) && a < b < |run| && CarryableID(id)
    requires run[a].op.Ended? && run[a].op.tx.OffTx? && run[a].op.status == Done
    requires run[b].op.Ended? && run[b].op.tx.OnTx? && run[b].op.status == Done
    requires id in IDs(run[a].op.tx.picks) + WaitingIDs(run[a].op.prev)
    requires forall k | a <= k <= b :: Names(run[k].db, id)
    ensures exists k :: a <= k <= b && id in Present(run[k].db)
  {
    RunKeeps(run, evs, a);
    WaitsOn(run, evs, a, b, id);
    if k :| a <= k < b && Committing(run[k], evs[k]).Some? && id in Tried(Committing(run[k], evs[k]).value) {
      assert Step(run[k], evs[k], run[k + 1]);
      TriedIsBack(run[k], evs[k], run[k + 1], id);
    }
  }

  /** A committed on that tries a pick the catalogue names has it in the database. */
  lemma TriedIsBack(s: State, e: Event, t: State, id: ID)
    requires Step(s, e, t) && Committing(s, e).Some? && id in Tried(Committing(s, e).value) && Names(s.db, id)
    ensures id in Present(t.db)
  {
    var picks := Committing(s, e).value.picks;
    var p :| p in picks && Carryable(p) && IDOf(p) == id;
    IsPutBack(s.db, picks, p);
  }

  // ---- off and on, as the code runs them ----

  /** What happens around one off or on: whether the macOS release, the database
      and the record can be read, what else changes the database while the root
      step is pending, what the step does, and which writes go through. */
  datatype Fate = Fate(applicable: bool, readable: bool, meanwhile: Db, wrote: bool, started: bool, committed: bool,
                       status: Status, lives: bool)

  /** The database after a root step of this fate. */
  function Left(db: Db, tx: Tx, fate: Fate): Db {
    if !fate.started then db else if fate.committed then Apply(tx, fate.meanwhile) else fate.meanwhile
  }

  /** The transaction of an on: the picks of the record it works from. */
  function PutBack(record: Option<Record>): Tx {
    OnTx(if record.Some? then record.value.picks else [])
  }

  /** The record an off leaves: the picks of one that waits, whole and first, then those
      just read whose identity it lacks, each once; with none waiting, just those read. */
  ghost predicate Remembered(prev: Option<Record>, picks: seq<Pick>, record: Option<Record>) {
    && record.Some? && !record.value.restored
    && (if prev.Some? && !prev.value.restored && prev.value.picks != []
        then UnionOf(prev.value.picks, picks, record.value.picks)
        else record.value.picks == picks)
  }

  class Aerials {
    var db: Db
    var record: Option<Record>
    ghost var op: Op
    ghost var late: Option<Tx>
    ghost var owed: set<ID>
    ghost var run: seq<State>
    ghost var evs: seq<Event>

    ghost function Now(): State
      reads this
    {
      State(db, record, op, late, owed)
    }

    ghost predicate Valid()
      reads this
    {
      IsRun(run, evs) && Initial(run[0]) && run[|run| - 1] == Now()
    }

    constructor (db: Db, record: Option<Record>)
      ensures Valid() && op == Idle && this.db == db && this.record == record
    {
      this.db, this.record := db, record;
      op, late, owed := Idle, None, {};
      run, evs := [State(db, record, Idle, None, {})], [];
    }

    /** The step e has taken the machine to t, whose database and record are in place. */
    ghost method Took(e: Event, t: State)
      requires IsRun(run, evs) && Initial(run[0]) && Step(run[|run| - 1], e, t)
      requires t.db == db && t.record == record
      modifies `op, `late, `owed, `run, `evs
      ensures Valid() && Now() == t && evs == old(evs) + [e] && run == old(run) + [t]
    {
      op, late, owed := t.op, t.late, t.owed;
      run, evs := run + [t], evs + [e];
    }

    /** The root step, between its start and its end; Nothing when it never ran. */
    method Act(tx: Tx, fate: Fate) returns (status: Status)
      requires Valid() && (op.OffRecorded? || op.OnRead?) && late.None?
      requires tx == if op.OffRecorded? then OffTx(op.picks) else PutBack(op.prev)
      requires op.OnRead? ==> op.prev.Some?
      requires Tells(tx, fate.status, fate.committed) && SameRows(fate.meanwhile, Pending(Now()))
      requires fate.lives ==> fate.status == Unclear && !fate.committed
      modifies this
      ensures Valid() && op == Ended(tx, old(op.prev), status) && record == old(record)
      ensures status == if fate.started then fate.status else Nothing
      ensures db == Left(old(db), tx, fate)
      ensures old(evs) <= evs
    {
      ghost var prev := op.prev;
      if !fate.started {
        Took(NotStarted, Now().(op := Ended(tx, prev, Nothing)));
        return Nothing;
      }
      Began(tx, fate.meanwhile);
      Finished(tx, fate);
      return fate.status;
    }

    /** The step is running, and the database has changed meanwhile. */
    method Began(tx: Tx, meanwhile: Db)
      requires Valid() && (op.OffRecorded? || op.OnRead?) && late.None?
      requires tx == if op.OffRecorded? then OffTx(op.picks) else PutBack(op.prev)
      requires op.OnRead? ==> op.prev.Some?
      requires SameRows(meanwhile, Pending(Now()))
      modifies this
      ensures Valid() && op == Running(tx, old(op.prev), false) && record == old(record) && late.None?
      ensures db == meanwhile && old(evs) <= evs
    {
      ghost var prev := op.prev;
      Took(Start, Now().(op := Running(tx, prev, false)));
      db := meanwhile;
      Took(Elsewhere(db), run[|run| - 1].(db := db, owed := Owing(owed, db)));
    }

    /** It commits or not, and ends. */
    method Finished(tx: Tx, fate: Fate)
      requires Valid() && op.Running? && op.tx == tx && !op.committed && late.None?
      requires Tells(tx, fate.status, fate.committed)
      requires fate.lives ==> fate.status == Unclear && !fate.committed
      modifies this
      ensures Valid() && op == Ended(tx, old(op.prev), fate.status) && record == old(record)
      ensures db == if fate.committed then Apply(tx, old(db)) else old(db)
      ensures old(evs) <= evs
    {
      ghost var prev := op.prev;
      if fate.committed {
        ghost var s := Now();
        db := Apply(tx, db);
        Took(Commits, Commit(s, tx).(op := Running(tx, prev, true)));
      }
      Took(Ends(fate.status, fate.lives),
        Now().(op := Ended(tx, prev, fate.status), late := if fate.lives then Some(tx) else None));
    }

    /** Off, once the password is given; putBack is whether putting the record back
        would succeed. */
    method Off(picks: seq<Pick>, fate: Fate, putBack: bool) returns (status: Option<Status>)
      requires Valid() && op == Idle && Reads(db, picks)
      requires Tells(OffTx(picks), fate.status, fate.committed) && SameRows(fate.meanwhile, picks)
      requires fate.lives ==> fate.status == Unclear && !fate.committed
      modifies this
      ensures Valid() && op == Idle && old(evs) <= evs
      ensures status.None? <==> !fate.applicable || picks == [] || !fate.readable || !fate.wrote
      ensures status.None? ==> db == old(db) && record == old(record)
      ensures status.Some? ==> status.value == (if fate.started then fate.status else Nothing)
      ensures status.Some? ==>
        db == if !fate.started then old(db) else if fate.committed then Apply(OffTx(picks), fate.meanwhile)
              else fate.meanwhile
      ensures status.Some? && status.value == Nothing && putBack ==> record == old(record)
      ensures status.Some? && !(status.value == Nothing && putBack) ==> Remembered(old(record), picks, record)
    {
      if !fate.applicable || picks == [] || !fate.readable {
        return None;
      }
      Took(BeginOff(picks), Now().(op := OffRead(picks, record), late := None));
      var prev := record;
      Remember(picks, prev, fate.wrote);
      if !fate.wrote {
        return None;
      }
      var st := Act(OffTx(picks), fate);
      if st == Nothing && putBack {
        record := prev;
      }
      Took(FinishOff(putBack), run[|run| - 1].(record := record, op := Idle));
      return Some(st);
    }

    /** The record is written, the waiting picks beside the new ones, before anything is deleted. */
    method Remember(picks: seq<Pick>, prev: Option<Record>, wrote: bool)
      requires Valid() && op == OffRead(picks, prev) && record == prev && late.None?
      modifies this
      ensures Valid() && db == old(db) && late.None? && old(evs) <= evs
      ensures !wrote ==> op == Idle && record == prev
      ensures wrote ==> op == OffRecorded(picks, prev) && Remembered(prev, picks, record)
    {
      var all := picks;
      if Waiting(prev) {
        all := Union(prev.value.picks, picks);
      }
      if !wrote {
        Took(WriteRecord(all, false), Now().(op := Idle));
        return;
      }
      record := Some(Record(all, false));
      Took(WriteRecord(all, true), run[|run| - 1].(record := record, op := OffRecorded(picks, prev)));
    }

    /** On, once the password is given; after is what is read back, None when it cannot be. */
    method On(fate: Fate, after: Option<seq<Pick>>, marked: bool) returns (status: Option<Status>, missing: nat)
      requires Valid() && op == Idle
      requires Tells(PutBack(record), fate.status, fate.committed)
      requires fate.lives ==> fate.status == Unclear && !fate.committed
      requires after.Some? ==> Reads(Left(db, PutBack(record), fate), after.value)
      modifies this
      ensures Valid() && op == Idle && old(evs) <= evs
      ensures status.None? <==> !fate.applicable || !fate.readable || !Waiting(old(record))
                                || forall p <- old(record).value.picks :: !Carryable(p)
      ensures status.None? ==> db == old(db) && record == old(record)
      ensures status.Some? ==> status.value == (if fate.started then fate.status else Nothing)
      ensures status.Some? ==>
        db == if !fate.started then old(db)
              else if fate.committed then Apply(OnTx(old(record).value.picks), fate.meanwhile)
              else fate.meanwhile
      ensures status.Some? ==> OnComesTo(old(record).value, status.value, after, marked, record, missing)
      ensures status == Some(Done) && marked ==> !Waiting(record)
      ensures status.None? ==> missing == 0
    {
      missing := 0;
      if !fate.applicable || !fate.readable || !Waiting(record) {
        return None, missing;
      }
      if forall p <- record.value.picks :: !Carryable(p) {
        return None, missing;
      }
      var rec := record.value;
      var st := Begun(rec, fate);
      missing := Settle(rec, st, after, marked);
      SettledComesTo(rec, st, after, marked);
      return Some(st), missing;
    }

    /** On's first half: the read under the lock, and the root step. */
    method Begun(rec: Record, fate: Fate) returns (status: Status)
      requires Valid() && op == Idle && record == Some(rec) && Waiting(record)
      requires exists p <- rec.picks :: Carryable(p)
      requires Tells(OnTx(rec.picks), fate.status, fate.committed)
      requires fate.lives ==> fate.status == Unclear && !fate.committed
      modifies this
      ensures Valid() && op == Ended(OnTx(rec.picks), Some(rec), status) && record == old(record) && old(evs) <= evs
      ensures status == if fate.started then fate.status else Nothing
      ensures db == Left(old(db), OnTx(rec.picks), fate)
    {
      Took(BeginOn, Now().(op := OnRead(record), late := None));
      assert Pending(Now()) == [];
      status := Act(OnTx(rec.picks), fate);
    }

    /** On's second half: a look at the database, and the record marked when that settles it. */
    method Settle(rec: Record, st: Status, after: Option<seq<Pick>>, marked: bool) returns (missing: nat)
      requires Valid() && op == Ended(OnTx(rec.picks), Some(rec), st) && record == Some(rec)
      requires after.Some? ==> Reads(db, after.value)
      modifies this
      ensures Valid() && op == Idle && old(evs) <= evs && db == old(db)
      ensures record == Some(Settled(rec, st, after, marked))
      ensures missing == MissingOf(rec, st, after)
    {
      var mark;
      mark, missing := Judge(rec, st, after);
      Took(Looks(after), Now().(op := OnLooked(Some(rec), mark)));
      if mark && marked {
        record := Some(rec.(restored := true));
      }
      Took(FinishOn(marked), run[|run| - 1].(record := record, op := Idle));
    }
  }

  /** The record after an on: marked restored when it is due and the write goes through. */
  function Settled(rec: Record, st: Status, after: Option<seq<Pick>>, marked: bool): Record {
    if Marks(rec, st, after) && marked then rec.(restored := true) else rec
  }

  /** What an on counts as missing: nothing while the record stays unmarked, or when
      the database could not be looked at. */
  function MissingOf(rec: Record, st: Status, after: Option<seq<Pick>>): nat {
    if Marks(rec, st, after) && after.Some? then |GoneFrom(rec.picks, IDs(after.value))| else 0
  }

  /** The recorded picks that are not among those read, by what they are. */
  ghost function Absent(picks: seq<Pick>, after: seq<Pick>): set<int> {
    set i | 0 <= i < |picks| && forall q <- after :: IDOf(q) != IDOf(picks[i])
  }

  /** All the picks on's SQL can carry are among those read. */
  ghost predicate AllBack(picks: seq<Pick>, after: seq<Pick>) {
    forall p <- picks | Carryable(p) :: exists q <- after :: IDOf(q) == IDOf(p)
  }

  /** The record and the count an on leaves. The step said it did it all: the record is
      restored, and missing counts what is not there. It said it did nothing: both as they
      were. It said neither: the first, when all that can be carried is seen to be back. */
  ghost predicate OnComesTo(rec: Record, st: Status, after: Option<seq<Pick>>, marked: bool, record: Option<Record>,
                            missing: nat) {
    if st == Done || (st != Nothing && after.Some? && AllBack(rec.picks, after.value)) then
      record == Some(Record(rec.picks, marked || rec.restored)) &&
      missing == (if after.Some? then |Absent(rec.picks, after.value)| else 0)
    else record == Some(rec) && missing == 0
  }

  lemma SettledComesTo(rec: Record, st: Status, after: Option<seq<Pick>>, marked: bool)
    ensures OnComesTo(rec, st, after, marked, Some(Settled(rec, st, after, marked)), MissingOf(rec, st, after))
  {
    if after.Some? {
      AbsentAreGone(rec.picks, after.value);
      forall p ensures IDOf(p) in IDs(after.value) <==> exists q <- after.value :: IDOf(q) == IDOf(p) {}
    }
  }

  lemma {:induction false} AbsentAreGone(picks: seq<Pick>, after: seq<Pick>)
    ensures |GoneFrom(picks, IDs(after))| == |Absent(picks, after)|
  {
    if picks == [] {
      assert Absent(picks, after) == {};
    } else {
      var n := |picks| - 1;
      AbsentAreGone(picks[..n], after);
      AbsentNext(picks, after);
      assert IDOf(picks[n]) in IDs(after) <==> exists q <- after :: IDOf(q) == IDOf(picks[n]);
    }
  }

  lemma AbsentNext(picks: seq<Pick>, after: seq<Pick>)
    requires picks != []
    ensures var n := |picks| - 1; var last := forall q <- after :: IDOf(q) != IDOf(picks[n]);
      |Absent(picks, after)| == |Absent(picks[..n], after)| + if last then 1 else 0
  {
    var n := |picks| - 1;
    if forall q <- after :: IDOf(q) != IDOf(picks[n]) {
      assert Absent(picks, after) == Absent(picks[..n], after) + {n};
    } else {
      assert Absent(picks, after) == Absent(picks[..n], after);
    }
  }

  /** Whether on marks the record restored, and how many picks it counts as missing. */
  method Judge(rec: Record, st: Status, after: Option<seq<Pick>>) returns (mark: bool, missing: nat)
    ensures mark <==> Marks(rec, st, after)
    ensures missing == MissingOf(rec, st, after)
  {
    mark, missing := st == Done, 0;
    if st != Done && st != Nothing && after.Some? {
      var carried := CarriedOf(rec.picks);
      var left := Gone(carried, after.value);
      mark := |left| == 0;
      NoneLeft(rec.picks, carried, after.value);
    }
    if mark && after.Some? {
      var gone := Gone(rec.picks, after.value);
      missing := |gone|;
    }
  }

  /** The recorded picks on's SQL can carry. */
  method CarriedOf(picks: seq<Pick>) returns (carried: seq<Pick>)
    ensures forall p :: p in carried <==> p in picks && Carryable(p)
  {
    carried := [];
    for i := 0 to |picks|
      invariant forall p :: p in carried <==> p in picks[..i] && Carryable(p)
    {
      if Carryable(picks[i]) { carried := carried + [picks[i]]; }
    }
    assert picks[..|picks|] == picks;
  }

  lemma NoneLeft(picks: seq<Pick>, carried: seq<Pick>, after: seq<Pick>)
    requires forall p :: p in carried <==> p in picks && Carryable(p)
    ensures |GoneFrom(carried, IDs(after))| == 0 <==> forall p | p in picks && Carryable(p) :: IDOf(p) in IDs(after)
  {
    var left := GoneFrom(carried, IDs(after));
    if |left| > 0 { assert left[0] in left; }
  }
}
