// The engine protocol's session: internal/protocol/server.go. One operation in
// flight, scans that supersede each other, plans that expire or are spent, and
// cancels that wait.
module Session {
  import opened Catalog

  datatype Code =
    | LineTooLong | BadRequest | UnknownRequest | Busy | RulesFailed | RulesChanged
    | ScanRunning | ScanCanceled | ScanSpent | ScanSuperseded | UnknownScan
    | Unmatched | UnknownPlan | PlanExpired | ExecuteFailed | TickFailed | AutotrimLocked
    | HistoryFailed | UpdatesFailed | AerialsFailed

  datatype Work = ScanWork | ExecuteWork | TickWork | SwitchWork

  datatype Status = Running | Finished | Canceled | Spent

  /** rules: the ids of the findings' rules, empty until the scan is finished. */
  datatype Scan = Scan(num: nat, status: Status, rules: set<string>)

  /** A plan id's entry: the plan's scan, or only its age once pruned. */
  datatype Held = Held(scan: nat, created: int) | Pruned(created: int)

  /** no numbers the request among all requests handled; ids may repeat. */
  datatype Ask = Ask(re: string, no: nat)

  /** planID and scan are those of the plan an execute runs; built says its
      executor was built. */
  datatype Op = Op(kind: Work, ask: Ask, stopped: bool, cancels: seq<Ask>, planID: string, scan: nat, built: bool)

  /** One event sent to the peer: last for a request's terminal event. slot is the
      request holding the in-flight slot at that moment. */
  datatype Out = Out(ask: Ask, last: bool, code: Option<Code>, slot: Option<nat>)

  /** minted: every plan id ever issued. */
  datatype State = State(scanSeq: nat, scan: Option<Scan>, plans: map<string, Held>, inflight: Option<Op>,
                         asking: map<nat, string>, ids: seq<string>, out: seq<Out>, minted: set<string>)

  const START := State(0, None, map[], None, map[], [], [], {})

  /** How a plan request names a scan: the session's nonce and a number as the
      session spells it, that number spelled another way Go's Atoi reads, or
      anything else. */
  datatype ScanID = NoID | Own(num: int) | Respelled(num: int) | Foreign

  /** What the rule switch reads: there may be none, or it may fail. */
  datatype Reading = NoSwitch | Unreadable | Runs(ids: set<string>)

  datatype Event =
    | TooLong
    | Malformed(re: string)
    | AtOnce(re: string, code: Option<Code>)
    | AskScan(re: string, reading: Reading)
    | AskPlan(re: string, id: ScanID, reading: Reading, now: int, unmatched: bool, planID: string)
    | AskExecute(re: string, planID: string, reading: Reading, now: int)
    | AskCancel(re: string, target: string)
    | AskWork(re: string, kind: Work)
    | AskAside(re: string)
    | Progress
    | EndScan(canceled: bool, rules: set<string>)
    | BuildExecutor
    | End(code: Option<Code>)
    | AnswerAside(no: nat, code: Option<Code>)
    | StopAll

  // ---- what each handler does ----

  function Slot(s: State): Option<nat> {
    if s.inflight.Some? then Some(s.inflight.value.ask.no) else None
  }

  function Emit(s: State, a: Ask, last: bool, code: Option<Code>): State {
    s.(out := s.out + [Out(a, last, code, Slot(s))])
  }

  function Fail(s: State, a: Ask, code: Code): State { Emit(s, a, true, Some(code)) }

  function DoneWith(s: State, a: Ask): State { Emit(s, a, true, None) }

  /** The request read next, and the state that counts it. */
  function Next(s: State, re: string): Ask { Ask(re, |s.ids|) }

  function Counted(s: State, re: string): State { s.(ids := s.ids + [re]) }

  function Begin(s: State, kind: Work, a: Ask, planID: string, scan: nat): State {
    s.(inflight := Some(Op(kind, a, false, [], planID, scan, false)))
  }

  function Dones(cancels: seq<Ask>): (out: seq<Out>)
    ensures |out| == |cancels|
  {
    seq(|cancels|, i requires 0 <= i < |cancels| => Out(cancels[i], true, None, None))
  }

  /** The slot is freed first, then the terminal event goes out, then the dones of
      the cancels that waited. */
  function Ended(s: State, code: Option<Code>): State
    requires s.inflight.Some?
  {
    var op := s.inflight.value;
    var t := Emit(s.(inflight := None), op.ask, true, code);
    t.(out := t.out + Dones(op.cancels))
  }

  function BeginScan(s: State, a: Ask): State {
    Begin(s, ScanWork, a, "", 0).(
      scanSeq := s.scanSeq + 1, scan := Some(Scan(s.scanSeq + 1, Running, {})), plans := map[])
  }

  function OnScan(s: State, a: Ask, reading: Reading): State {
    if s.inflight.Some? then Fail(s, a, Busy)
    else if reading == Unreadable then Fail(s, a, RulesFailed)
    else BeginScan(s, a)
  }

  function ScanFor(s: State, id: ScanID): Option<Code> {
    if id == NoID then Some(BadRequest)
    else if s.scan.Some? && id == Own(s.scan.value.num) then
      match s.scan.value.status
      case Running => Some(ScanRunning)
      case Canceled => Some(ScanCanceled)
      case Spent => Some(ScanSpent)
      case Finished => None
    else if (id.Own? || id.Respelled?) && s.scan.Some? && 1 <= id.num < s.scan.value.num then Some(ScanSuperseded)
    else Some(UnknownScan)
  }

  function TurnedOff(reading: Reading, rules: set<string>): Option<Code> {
    match reading
    case NoSwitch => None
    case Unreadable => Some(RulesFailed)
    case Runs(ids) => if rules <= ids then None else Some(RulesChanged)
  }

  predicate Expired(h: Held, now: int, ttl: int) {
    h.Pruned? || now - h.created > ttl
  }

  /** Old plans lose their body, and keep their id. */
  function Prune(plans: map<string, Held>, now: int, ttl: int): map<string, Held> {
    map id | id in plans :: if Expired(plans[id], now, ttl) then Pruned(plans[id].created) else plans[id]
  }

  function HoldPlan(s: State, a: Ask, now: int, planID: string, ttl: int): State
    requires s.scan.Some?
  {
    var t := s.(plans := Prune(s.plans, now, ttl)[planID := Held(s.scan.value.num, now)],
                minted := s.minted + {planID});
    DoneWith(Emit(t, a, false, None), a)
  }

  function OnPlan(s: State, a: Ask, id: ScanID, reading: Reading, now: int, unmatched: bool, planID: string,
                  ttl: int): State {
    var refused := ScanFor(s, id);
    var off := if refused.None? && s.scan.Some? then TurnedOff(reading, s.scan.value.rules) else refused;
    if off.Some? then Fail(s, a, off.value)
    else if s.scan.None? then s
    else if unmatched then Fail(s, a, Unmatched)
    else HoldPlan(s, a, now, planID, ttl)
  }

  function OnExecute(s: State, a: Ask, planID: string, reading: Reading, now: int, ttl: int): State {
    if planID == "" then Fail(s, a, BadRequest)
    else if s.inflight.Some? then Fail(s, a, Busy)
    else if planID !in s.plans then Fail(s, a, UnknownPlan)
    else
      var held := s.plans[planID];
      var t := s.(plans := s.plans - {planID});
      if Expired(held, now, ttl) then Fail(t, a, PlanExpired)
      else
        var off := TurnedOff(reading, if s.scan.Some? then s.scan.value.rules else {});
        if off.Some? then Fail(t, a, off.value) else Begin(t, ExecuteWork, a, planID, held.scan)
  }

  function OnCancel(s: State, a: Ask, target: string): State {
    if target == "" then Fail(s, a, BadRequest)
    else if s.inflight.None? || s.inflight.value.ask.re != target then DoneWith(s, a)
    else
      var op := s.inflight.value;
      s.(inflight := Some(op.(stopped := true, cancels := op.cancels + [a])))
  }

  function OnWork(s: State, a: Ask, kind: Work): State {
    if s.inflight.Some? then Fail(s, a, Busy) else Begin(s, kind, a, "", 0)
  }

  /** The executor is built: the scan is spent, and every plan of it dropped. */
  function Built(s: State): State
    requires s.inflight.Some?
  {
    s.(plans := map[],
       scan := if s.scan.Some? && s.scan.value.num == s.inflight.value.scan then Some(s.scan.value.(status := Spent))
               else s.scan,
       inflight := Some(s.inflight.value.(built := true)))
  }

  function ScanEnded(s: State, canceled: bool, rules: set<string>): State
    requires s.inflight.Some? && s.scan.Some?
  {
    var sc := s.scan.value;
    Ended(s.(scan := Some(if canceled then sc.(status := Canceled) else sc.(status := Finished, rules := rules))), None)
  }

  // ---- the session as a step system ----

  /** Which steps may happen. A scan says canceled only once told to stop; an
      execute ends in a refusal before its executor is built and in a result after
      it; plan ids are 128 random bits, taken to be new each time. */
  predicate Enabled(s: State, e: Event) {
    match e
    case AskPlan(_, _, _, _, _, planID) => planID != "" && planID !in s.minted
    case AskWork(_, kind) => kind == TickWork || kind == SwitchWork
    case Progress => s.inflight.Some?
    case EndScan(canceled, _) => s.inflight.Some? && s.inflight.value.kind == ScanWork && s.scan.Some?
      && (canceled ==> s.inflight.value.stopped)
    case BuildExecutor => s.inflight.Some? && s.inflight.value.kind == ExecuteWork && !s.inflight.value.built
    case End(code) =>
      s.inflight.Some? && s.inflight.value.kind != ScanWork &&
      (s.inflight.value.kind == ExecuteWork && !s.inflight.value.built ==> code == Some(ExecuteFailed))
    case AnswerAside(no, _) => no in s.asking
    case _ => true
  }

  function Step(s: State, e: Event, ttl: int): State
    requires Enabled(s, e)
  {
    match e
    case TooLong => Fail(Counted(s, ""), Next(s, ""), LineTooLong)
    case Malformed(re) => Fail(Counted(s, re), Next(s, re), BadRequest)
    case AtOnce(re, code) => Emit(Counted(s, re), Next(s, re), true, code)
    case AskScan(re, reading) => OnScan(Counted(s, re), Next(s, re), reading)
    case AskPlan(re, id, reading, now, unmatched, planID) => OnPlan(Counted(s, re), Next(s, re), id, reading, now,
      unmatched, planID, ttl)
    case AskExecute(re, planID, reading, now) => OnExecute(Counted(s, re), Next(s, re), planID, reading, now, ttl)
    case AskCancel(re, target) => OnCancel(Counted(s, re), Next(s, re), target)
    case AskWork(re, kind) => OnWork(Counted(s, re), Next(s, re), kind)
    case AskAside(re) => Counted(s, re).(asking := s.asking[|s.ids| := re])
    case Progress => Emit(s, s.inflight.value.ask, false, None)
    case EndScan(canceled, rules) => ScanEnded(s, canceled, rules)
    case BuildExecutor => Built(s)
    case End(code) => Ended(s, code)
    case AnswerAside(no, code) => Emit(s.(asking := s.asking - {no}), Ask(s.asking[no], no), true, code)
    case StopAll => if s.inflight.None? then s else s.(inflight := Some(s.inflight.value.(stopped := true)))
  }

  // ---- the plans: an inductive invariant ----

  predicate Current(s: State, num: nat, status: Status) {
    s.scan.Some? && s.scan.value.num == num && s.scan.value.status == status
  }

  ghost predicate PlansInv(s: State) {
    && (if s.scan.Some? then s.scan.value.num == s.scanSeq >= 1 else s.scanSeq == 0)
    && (forall id <- s.plans :: id in s.minted && (s.plans[id].Held? ==> Current(s, s.plans[id].scan, Finished)))
    && (s.inflight.Some? && s.inflight.value.kind == ScanWork <==> s.scan.Some? && s.scan.value.status == Running)
    && (s.inflight.Some? && s.inflight.value.kind == ExecuteWork ==>
          && s.inflight.value.planID in s.minted
          && Current(s, s.inflight.value.scan, if s.inflight.value.built then Spent else Finished))
  }

  lemma PlanKeepsPlans(s: State, a: Ask, id: ScanID, reading: Reading, now: int, unmatched: bool, planID: string,
                       ttl: int)
    requires PlansInv(s) && planID !in s.minted
    ensures PlansInv(OnPlan(s, a, id, reading, now, unmatched, planID, ttl))
  {
  }

  lemma ExecuteKeepsPlans(s: State, a: Ask, planID: string, reading: Reading, now: int, ttl: int)
    requires PlansInv(s)
    ensures PlansInv(OnExecute(s, a, planID, reading, now, ttl))
  {
  }

  lemma EndKeepsPlans(s: State, e: Event, ttl: int)
    requires PlansInv(s) && Enabled(s, e) && (e.EndScan? || e.End?)
    ensures PlansInv(Step(s, e, ttl))
  {
  }

  /** What only sends events or counts requests keeps the plans as they are. */
  lemma SamePlans(s: State, t: State)
    requires PlansInv(s) && t.scanSeq == s.scanSeq && t.scan == s.scan && t.plans == s.plans && t.minted == s.minted
    requires t.inflight == s.inflight
    ensures PlansInv(t)
  {
  }

  lemma ScanKeepsPlans(s: State, a: Ask, reading: Reading)
    requires PlansInv(s)
    ensures PlansInv(OnScan(s, a, reading))
  {
  }

  lemma WorkKeepsPlans(s: State, a: Ask, kind: Work)
    requires PlansInv(s) && kind in {TickWork, SwitchWork}
    ensures PlansInv(OnWork(s, a, kind))
  {
  }

  lemma CancelKeepsPlans(s: State, a: Ask, target: string)
    requires PlansInv(s)
    ensures PlansInv(OnCancel(s, a, target))
  {
  }

  lemma BuiltKeepsPlans(s: State)
    requires PlansInv(s) && Enabled(s, BuildExecutor)
    ensures PlansInv(Built(s))
  {
  }

  lemma StepKeepsPlans(s: State, e: Event, ttl: int)
    requires PlansInv(s) && Enabled(s, e)
    ensures PlansInv(Step(s, e, ttl))
  {
    match e
    case AskScan(re, reading) => ScanKeepsPlans(Counted(s, re), Next(s, re), reading);
    case AskWork(re, kind) => WorkKeepsPlans(Counted(s, re), Next(s, re), kind);
    case AskCancel(re, target) => CancelKeepsPlans(Counted(s, re), Next(s, re), target);
    case BuildExecutor => BuiltKeepsPlans(s);
    case TooLong => SamePlans(s, Step(s, e, ttl));
    case Malformed(_) => SamePlans(s, Step(s, e, ttl));
    case AtOnce(_, _) => SamePlans(s, Step(s, e, ttl));
    case AskAside(_) => SamePlans(s, Step(s, e, ttl));
    case Progress => SamePlans(s, Step(s, e, ttl));
    case AnswerAside(_, _) => SamePlans(s, Step(s, e, ttl));
    case AskPlan(re, id, reading, now, unmatched, planID) =>
      PlanKeepsPlans(Counted(s, re), Next(s, re), id, reading, now, unmatched, planID, ttl);
    case AskExecute(re, planID, reading, now) => ExecuteKeepsPlans(Counted(s, re), Next(s, re), planID, reading, now,
      ttl);
    case EndScan(_, _) => EndKeepsPlans(s, e, ttl);
    case End(_) => EndKeepsPlans(s, e, ttl);
    case _ =>
  }

  // ---- one terminal event each: an inductive invariant ----

  /** How many terminal events the request has had. */
  function Answers(out: seq<Out>, no: nat): nat {
    if out == [] then 0
    else Answers(out[..|out| - 1], no) + if out[|out| - 1].last && out[|out| - 1].ask.no == no then 1 else 0
  }

  function Waits(asks: seq<Ask>, no: nat): nat {
    if asks == [] then 0 else Waits(asks[..|asks| - 1], no) + if asks[|asks| - 1].no == no then 1 else 0
  }

  /** How many terminal events the request still has coming. */
  function Due(s: State, no: nat): nat {
    (if no in s.asking then 1 else 0) +
    match s.inflight
    case None => 0
    case Some(op) => (if op.ask.no == no then 1 else 0) + Waits(op.cancels, no)
  }

  /** Every request handled has had its terminal event or has one coming. */
  ghost predicate Once(s: State) {
    forall no: nat :: Answers(s.out, no) + Due(s, no) == if no < |s.ids| then 1 else 0
  }

  predicate Known(s: State, a: Ask) { a.no < |s.ids| && s.ids[a.no] == a.re }

  /** Events name the request they answer, by its number and its id. */
  ghost predicate Named(s: State) {
    && (forall i | 0 <= i < |s.out| :: Known(s, s.out[i].ask))
    && (forall no <- s.asking :: Known(s, Ask(s.asking[no], no)))
    && (s.inflight.Some? ==>
          Known(s, s.inflight.value.ask) &&
          forall i | 0 <= i < |s.inflight.value.cancels| :: Known(s, s.inflight.value.cancels[i]))
  }

  /** A terminal event goes out once its request has let go of the slot. */
  ghost predicate SlotFree(s: State) {
    forall i | 0 <= i < |s.out| :: s.out[i].last ==> s.out[i].slot != Some(s.out[i].ask.no)
  }

  ghost predicate RequestsInv(s: State) { Named(s) && Once(s) && SlotFree(s) }

  lemma AnswersOne(out: seq<Out>, o: Out, no: nat)
    ensures Answers(out + [o], no) == Answers(out, no) + if o.last && o.ask.no == no then 1 else 0
  {
    assert (out + [o])[..|out|] == out;
  }

  lemma {:induction false} AnswersDones(out: seq<Out>, cancels: seq<Ask>, no: nat)
    ensures Answers(out + Dones(cancels), no) == Answers(out, no) + Waits(cancels, no)
  {
    if cancels == [] {
      assert out + Dones(cancels) == out;
    } else {
      var n := |cancels| - 1;
      AnswersDones(out, cancels[..n], no);
      AnswersOne(out + Dones(cancels[..n]), Dones(cancels)[n], no);
      assert out + Dones(cancels) == (out + Dones(cancels[..n])) + [Dones(cancels)[n]];
    }
  }

  /** The new request is answered at once, whatever else of the session changed. */
  lemma AtOnceKeeps(s: State, re: string, c: State, code: Option<Code>)
    requires RequestsInv(s)
    requires c.ids == s.ids + [re] && c.out == s.out && c.asking == s.asking && c.inflight == s.inflight
    ensures RequestsInv(Emit(c, Next(s, re), true, code))
  {
    var t := Emit(c, Next(s, re), true, code);
    forall no: nat ensures Answers(t.out, no) + Due(t, no) == if no < |t.ids| then 1 else 0 {
      AnswersOne(s.out, Out(Next(s, re), true, code, Slot(c)), no);
    }
  }

  lemma BeginKeeps(s: State, re: string, c: State)
    requires RequestsInv(s) && s.inflight.None?
    requires c.ids == s.ids + [re] && c.out == s.out && c.asking == s.asking
    requires c.inflight.Some? && c.inflight.value.ask == Next(s, re) && c.inflight.value.cancels == []
    ensures RequestsInv(c)
  {
  }

  lemma PlannedKeeps(s: State, re: string, c: State)
    requires RequestsInv(s)
    requires c.ids == s.ids + [re] && c.out == s.out && c.asking == s.asking && c.inflight == s.inflight
    ensures RequestsInv(DoneWith(Emit(c, Next(s, re), false, None), Next(s, re)))
  {
    var t := DoneWith(Emit(c, Next(s, re), false, None), Next(s, re));
    PlannedOnce(s, re, c, t);
    PlannedNamed(s, re, c, t);
  }

  lemma PlannedOnce(s: State, re: string, c: State, t: State)
    requires RequestsInv(s) && t == DoneWith(Emit(c, Next(s, re), false, None), Next(s, re))
    requires c.ids == s.ids + [re] && c.out == s.out && c.asking == s.asking && c.inflight == s.inflight
    ensures Once(t)
  {
    var o, last := Out(Next(s, re), false, None, Slot(c)), Out(Next(s, re), true, None, Slot(c));
    forall no: nat ensures Answers(t.out, no) + Due(t, no) == if no < |t.ids| then 1 else 0 {
      AnswersOne(s.out, o, no);
      AnswersOne(s.out + [o], last, no);
      assert Answers(s.out, no) + Due(s, no) == if no < |s.ids| then 1 else 0;
    }
  }

  lemma PlannedNamed(s: State, re: string, c: State, t: State)
    requires Named(s) && Once(s) && SlotFree(s) && t == DoneWith(Emit(c, Next(s, re), false, None), Next(s, re))
    requires c.ids == s.ids + [re] && c.out == s.out && c.asking == s.asking && c.inflight == s.inflight
    ensures Named(t) && SlotFree(t)
  {
  }

  lemma EndedKeeps(s: State, code: Option<Code>)
    requires RequestsInv(s) && s.inflight.Some?
    ensures RequestsInv(Ended(s, code))
  {
    var op := s.inflight.value;
    var t := Ended(s, code);
    var o := Out(op.ask, true, code, None);
    assert t.out == s.out + [o] + Dones(op.cancels);
    forall no: nat ensures Answers(t.out, no) + Due(t, no) == if no < |t.ids| then 1 else 0 {
      AnswersOne(s.out, o, no);
      AnswersDones(s.out + [o], op.cancels, no);
    }
  }

  lemma AsideKeeps(s: State, no: nat, code: Option<Code>)
    requires RequestsInv(s) && no in s.asking
    ensures RequestsInv(Emit(s.(asking := s.asking - {no}), Ask(s.asking[no], no), true, code))
  {
    var a := Ask(s.asking[no], no);
    var t := Emit(s.(asking := s.asking - {no}), a, true, code);
    assert Due(s, no) <= 1;
    forall n: nat ensures Answers(t.out, n) + Due(t, n) == if n < |t.ids| then 1 else 0 {
      AnswersOne(s.out, Out(a, true, code, Slot(s)), n);
    }
  }

  lemma CancelKeeps(s: State, re: string)
    requires RequestsInv(s) && s.inflight.Some?
    ensures RequestsInv(Counted(s, re).(inflight :=
      Some(s.inflight.value.(stopped := true, cancels := s.inflight.value.cancels + [Next(s, re)]))))
  {
    var cancels := s.inflight.value.cancels;
    assert (cancels + [Next(s, re)])[..|cancels|] == cancels;
  }

  lemma ProgressKeeps(s: State)
    requires RequestsInv(s) && s.inflight.Some?
    ensures RequestsInv(Emit(s, s.inflight.value.ask, false, None))
  {
    forall no: nat ensures Answers(Emit(s, s.inflight.value.ask, false, None).out, no) == Answers(s.out, no) {
      AnswersOne(s.out, Out(s.inflight.value.ask, false, None, Slot(s)), no);
    }
  }

  lemma PlanKeeps(s: State, re: string, id: ScanID, reading: Reading, now: int, unmatched: bool, planID: string,
                  ttl: int)
    requires RequestsInv(s)
    ensures RequestsInv(OnPlan(Counted(s, re), Next(s, re), id, reading, now, unmatched, planID, ttl))
  {
    var c := Counted(s, re);
    var t := OnPlan(c, Next(s, re), id, reading, now, unmatched, planID, ttl);
    var refused := ScanFor(c, id);
    if refused.Some? {
      AtOnceKeeps(s, re, c, refused);
    } else {
      var off := TurnedOff(reading, c.scan.value.rules);
      if off.Some? {
        AtOnceKeeps(s, re, c, off);
      } else if unmatched {
        AtOnceKeeps(s, re, c, Some(Unmatched));
      } else {
        PlannedKeeps(s, re, c.(plans := Prune(c.plans, now, ttl)[planID := Held(c.scan.value.num, now)],
                               minted := c.minted + {planID}));
      }
    }
  }

  lemma ExecuteKeeps(s: State, re: string, planID: string, reading: Reading, now: int, ttl: int)
    requires RequestsInv(s)
    ensures RequestsInv(OnExecute(Counted(s, re), Next(s, re), planID, reading, now, ttl))
  {
    var c := Counted(s, re);
    var t := OnExecute(c, Next(s, re), planID, reading, now, ttl);
    var gone := c.(plans := c.plans - {planID});
    if t.inflight == s.inflight {
      var code := t.out[|t.out| - 1].code;
      if planID in s.plans && planID != "" && s.inflight.None? {
        AtOnceKeeps(s, re, gone, code);
      } else {
        AtOnceKeeps(s, re, c, code);
      }
    } else {
      BeginKeeps(s, re, t);
    }
  }

  lemma ScanKeeps(s: State, re: string, reading: Reading)
    requires RequestsInv(s)
    ensures RequestsInv(OnScan(Counted(s, re), Next(s, re), reading))
  {
    if s.inflight.Some? {
      AtOnceKeeps(s, re, Counted(s, re), Some(Busy));
    } else if reading == Unreadable {
      AtOnceKeeps(s, re, Counted(s, re), Some(RulesFailed));
    } else {
      BeginKeeps(s, re, OnScan(Counted(s, re), Next(s, re), reading));
    }
  }

  lemma WorkKeeps(s: State, re: string, kind: Work)
    requires RequestsInv(s)
    ensures RequestsInv(OnWork(Counted(s, re), Next(s, re), kind))
  {
    if s.inflight.Some? {
      AtOnceKeeps(s, re, Counted(s, re), Some(Busy));
    } else {
      BeginKeeps(s, re, OnWork(Counted(s, re), Next(s, re), kind));
    }
  }

  lemma OnCancelKeeps(s: State, re: string, target: string)
    requires RequestsInv(s)
    ensures RequestsInv(OnCancel(Counted(s, re), Next(s, re), target))
  {
    if target == "" {
      AtOnceKeeps(s, re, Counted(s, re), Some(BadRequest));
    } else if s.inflight.None? || s.inflight.value.ask.re != target {
      AtOnceKeeps(s, re, Counted(s, re), None);
    } else {
      CancelKeeps(s, re);
    }
  }

  lemma NewAsideKeeps(s: State, re: string)
    requires RequestsInv(s)
    ensures RequestsInv(Counted(s, re).(asking := s.asking[|s.ids| := re]))
  {
  }

  lemma StepKeepsRequests(s: State, e: Event, ttl: int)
    requires RequestsInv(s) && PlansInv(s) && Enabled(s, e)
    ensures RequestsInv(Step(s, e, ttl))
  {
    match e
    case TooLong => AtOnceKeeps(s, "", Counted(s, ""), Some(LineTooLong));
    case Malformed(re) => AtOnceKeeps(s, re, Counted(s, re), Some(BadRequest));
    case AtOnce(re, code) => AtOnceKeeps(s, re, Counted(s, re), code);
    case AskScan(re, reading) => ScanKeeps(s, re, reading);
    case AskPlan(re, id, reading, now, unmatched, planID) => PlanKeeps(s, re, id, reading, now, unmatched, planID, ttl);
    case AskExecute(re, planID, reading, now) => ExecuteKeeps(s, re, planID, reading, now, ttl);
    case AskCancel(re, target) => OnCancelKeeps(s, re, target);
    case AskWork(re, kind) => WorkKeeps(s, re, kind);
    case AskAside(re) => NewAsideKeeps(s, re);
    case Progress => ProgressKeeps(s);
    case EndScan(canceled, rules) =>
      var sc := s.scan.value;
      EndedKeeps(s.(scan :=
        Some(if canceled then sc.(status := Canceled) else sc.(status := Finished, rules := rules))), None);
    case End(code) => EndedKeeps(s, code);
    case AnswerAside(no, code) => AsideKeeps(s, no, code);
    case BuildExecutor => SameRequests(s, Step(s, e, ttl));
    case StopAll => SameRequests(s, Step(s, e, ttl));
  }

  lemma SameRequests(s: State, t: State)
    requires RequestsInv(s) && t.ids == s.ids && t.out == s.out && t.asking == s.asking
    requires t.inflight.Some? == s.inflight.Some?
    requires s.inflight.Some? ==>
      t.inflight.value.ask == s.inflight.value.ask && t.inflight.value.cancels == s.inflight.value.cancels
    ensures RequestsInv(t)
  {
    forall no: nat ensures Due(t, no) == Due(s, no) {}
  }

  // ---- whole sessions ----

  ghost predicate IsRun(run: seq<State>, evs: seq<Event>, ttl: int) {
    && |run| == |evs| + 1 && run[0] == START
    && forall i | 0 <= i < |evs| :: Enabled(run[i], evs[i]) && run[i + 1] == Step(run[i], evs[i], ttl)
  }

  lemma {:induction false} RunKeepsPlans(run: seq<State>, evs: seq<Event>, ttl: int, n: nat)
    requires IsRun(run, evs, ttl) && n < |run|
    ensures PlansInv(run[n])
  {
    if n > 0 {
      RunKeepsPlans(run, evs, ttl, n - 1);
      StepKeepsPlans(run[n - 1], evs[n - 1], ttl);
    }
  }

  lemma {:induction false} RunKeepsRequests(run: seq<State>, evs: seq<Event>, ttl: int, n: nat)
    requires IsRun(run, evs, ttl) && n < |run|
    ensures RequestsInv(run[n])
  {
    if n > 0 {
      RunKeepsRequests(run, evs, ttl, n - 1);
      RunKeepsPlans(run, evs, ttl, n - 1);
      StepKeepsRequests(run[n - 1], evs[n - 1], ttl);
    }
  }

  /** The step starts an execute of this plan. */
  predicate Starts(s: State, e: Event, t: State) {
    e.AskExecute? && s.inflight.None? && t.inflight.Some?
  }

  /** An execute starts exactly when nothing is in flight, its plan is held and its
      time is not over, and every rule of the scan still runs; the scan is then the
      current one, finished and not spent, since no held plan outlives that. */
  lemma ExecuteStarts(run: seq<State>, evs: seq<Event>, ttl: int, i: nat)
    requires IsRun(run, evs, ttl) && i < |evs| && evs[i].AskExecute?
    ensures Starts(run[i], evs[i], run[i + 1]) <==>
      && evs[i].planID != "" && run[i].inflight.None? && evs[i].planID in run[i].plans
      && run[i].plans[evs[i].planID].Held? && evs[i].now - run[i].plans[evs[i].planID].created <= ttl
      && run[i].scan.Some? && evs[i].reading != Unreadable
      && (evs[i].reading.Runs? ==> forall rule <- run[i].scan.value.rules :: rule in evs[i].reading.ids)
    ensures Starts(run[i], evs[i], run[i + 1]) ==>
      Current(run[i], run[i].plans[evs[i].planID].scan, Finished) && run[i + 1].inflight.value.planID == evs[i].planID
  {
    RunKeepsPlans(run, evs, ttl, i);
    assert run[i + 1] == Step(run[i], evs[i], ttl);
  }

  /** Step p answered with this plan, of the scan current then, all of whose rules ran. */
  ghost predicate Plans(run: seq<State>, evs: seq<Event>, p: int, id: string, scan: nat, created: int) {
    0 <= p < |evs| && |evs| < |run| && evs[p].AskPlan? && evs[p].planID == id && evs[p].now == created
      && Current(run[p], scan, Finished) && StillRuns(evs[p].reading, run[p].scan.value.rules)
  }

  /** The switch, if there is one, was read, and no rule is turned off. */
  ghost predicate StillRuns(reading: Reading, rules: set<string>) {
    reading != Unreadable && (reading.Runs? ==> forall rule <- rules :: rule in reading.ids)
  }

  lemma HeldStep(s: State, e: Event, ttl: int, id: string)
    requires PlansInv(s) && Enabled(s, e)
    requires id in Step(s, e, ttl).plans && Step(s, e, ttl).plans[id].Held?
    ensures var h := Step(s, e, ttl).plans[id];
      || (e.AskPlan? && e.planID == id && e.now == h.created && Current(s, h.scan, Finished)
          && StillRuns(e.reading, s.scan.value.rules))
      || (id in s.plans && s.plans[id] == h)
  {
  }

  lemma {:induction false} HeldWasPlanned(run: seq<State>, evs: seq<Event>, ttl: int, n: nat, id: string)
    returns (p: nat)
    requires IsRun(run, evs, ttl) && n < |run| && id in run[n].plans && run[n].plans[id].Held?
    ensures p < n && Plans(run, evs, p, id, run[n].plans[id].scan, run[n].plans[id].created)
  {
    var already := HeldBefore(run, evs, ttl, n, id);
    if already {
      p := HeldWasPlanned(run, evs, ttl, n - 1, id);
    } else {
      p := n - 1;
    }
  }

  /** The plan was held as it is one step before, or that step answered with it. */
  ghost predicate HeldAlready(run: seq<State>, n: nat, id: string)
    requires n < |run| && id in run[n].plans
  {
    n > 0 && id in run[n - 1].plans && run[n - 1].plans[id] == run[n].plans[id]
  }

  lemma HeldBefore(run: seq<State>, evs: seq<Event>, ttl: int, n: nat, id: string) returns (already: bool)
    requires IsRun(run, evs, ttl) && n < |run| && id in run[n].plans && run[n].plans[id].Held?
    ensures n > 0
    ensures already <==> HeldAlready(run, n, id)
    ensures !already ==> Plans(run, evs, n - 1, id, run[n].plans[id].scan, run[n].plans[id].created)
  {
    RunKeepsPlans(run, evs, ttl, n - 1);
    HeldStep(run[n - 1], evs[n - 1], ttl, id);
    already := HeldAlready(run, n, id);
  }

  /** What runs was planned earlier in the session, from the scan still current,
      and not longer ago than the time to live. */
  lemma StartedWasPlanned(run: seq<State>, evs: seq<Event>, ttl: int, i: nat) returns (p: nat)
    requires IsRun(run, evs, ttl) && i < |evs| && Starts(run[i], evs[i], run[i + 1])
    ensures p < i && evs[p].AskPlan? && evs[p].planID == evs[i].planID && evs[i].now - evs[p].now <= ttl
    ensures run[p].scan.Some? && run[i].scan == run[p].scan && run[i].scan.value.status == Finished
    ensures StillRuns(evs[p].reading, run[p].scan.value.rules) && StillRuns(evs[i].reading, run[i].scan.value.rules)
  {
    ExecuteStarts(run, evs, ttl, i);
    p := HeldWasPlanned(run, evs, ttl, i, evs[i].planID);
    ScanStays(run, evs, ttl, p, i);
  }

  /** A scan is superseded, or spent, or stays as it was once finished. */
  predicate After(earlier: Scan, later: Scan) {
    later.num > earlier.num || later == earlier || (later.num == earlier.num && later.status == Spent)
  }

  lemma ScanStep(s: State, e: Event, ttl: int)
    requires PlansInv(s) && Enabled(s, e) && s.scan.Some?
    ensures var t := Step(s, e, ttl); t.scan.Some? && t.scan.value.num >= s.scan.value.num
    ensures s.scan.value.status in {Finished, Spent} ==> After(s.scan.value, Step(s, e, ttl).scan.value)
  {
  }

  lemma {:induction false} ScanStays(run: seq<State>, evs: seq<Event>, ttl: int, p: nat, i: nat)
    requires IsRun(run, evs, ttl) && p <= i < |run|
    requires run[p].scan.Some? && run[p].scan.value.status in {Finished, Spent}
    ensures run[i].scan.Some? && After(run[p].scan.value, run[i].scan.value)
  {
    if i > p {
      ScanStays(run, evs, ttl, p, i - 1);
      ScanOneStep(run, evs, ttl, i);
      if run[i - 1].scan.value.status in {Finished, Spent} {
        AfterBoth(run[p].scan.value, run[i - 1].scan.value, run[i].scan.value);
      }
    }
  }

  lemma ScanOneStep(run: seq<State>, evs: seq<Event>, ttl: int, i: nat)
    requires IsRun(run, evs, ttl) && 0 < i < |run| && run[i - 1].scan.Some?
    ensures run[i].scan.Some? && run[i].scan.value.num >= run[i - 1].scan.value.num
    ensures run[i - 1].scan.value.status in {Finished, Spent} ==> After(run[i - 1].scan.value, run[i].scan.value)
  {
    RunKeepsPlans(run, evs, ttl, i - 1);
    ScanStep(run[i - 1], evs[i - 1], ttl);
  }

  lemma AfterBoth(a: Scan, b: Scan, c: Scan)
    requires After(a, b) && After(b, c) && a.status in {Finished, Spent}
    ensures After(a, c)
  {
  }

  /** At most one execute of a scan gets as far as its executor. */
  lemma OneExecutorPerScan(run: seq<State>, evs: seq<Event>, ttl: int, i: nat, j: nat)
    requires IsRun(run, evs, ttl) && i < j < |evs| && evs[i] == BuildExecutor && evs[j] == BuildExecutor
    ensures run[i].inflight.value.scan < run[j].inflight.value.scan
  {
    RunKeepsPlans(run, evs, ttl, i);
    RunKeepsPlans(run, evs, ttl, j);
    assert run[i + 1] == Step(run[i], evs[i], ttl);
    ScanStays(run, evs, ttl, i + 1, j);
  }

  predicate IsGone(s: State, id: string) { id in s.minted && id !in s.plans }

  lemma GoneForGood(run: seq<State>, evs: seq<Event>, ttl: int, i: nat, j: nat, id: string)
    requires IsRun(run, evs, ttl) && i <= j < |run| && IsGone(run[i], id)
    ensures IsGone(run[j], id)
  {
    forall k: nat | k < |evs| ensures GoneStays(run, k, id) { GoneAt(run, evs, ttl, k, id); }
    GoneThen(run, i, j, id);
  }

  predicate GoneStays(run: seq<State>, k: nat, id: string)
    requires k + 1 < |run|
  {
    IsGone(run[k], id) ==> IsGone(run[k + 1], id)
  }

  lemma GoneAt(run: seq<State>, evs: seq<Event>, ttl: int, k: nat, id: string)
    requires IsRun(run, evs, ttl) && k < |evs|
    ensures GoneStays(run, k, id)
  {
    assert run[k + 1] == Step(run[k], evs[k], ttl);
    if IsGone(run[k], id) { GoneStep(run[k], evs[k], ttl, id); }
  }

  lemma {:induction false} GoneThen(run: seq<State>, i: nat, j: nat, id: string)
    requires i <= j < |run| && IsGone(run[i], id) && forall k: nat | k < |run| - 1 :: GoneStays(run, k, id)
    ensures IsGone(run[j], id)
  {
    if i < j {
      GoneThen(run, i, j - 1, id);
      assert GoneStays(run, j - 1, id);
    }
  }

  lemma GoneStep(s: State, e: Event, ttl: int, id: string)
    requires Enabled(s, e) && id in s.minted && id !in s.plans
    ensures id in Step(s, e, ttl).minted && id !in Step(s, e, ttl).plans
  {
  }

  /** No plan id is run twice, nor run again after a refused execute of it. */
  lemma NoPlanTwice(run: seq<State>, evs: seq<Event>, ttl: int, i: nat, j: nat)
    requires IsRun(run, evs, ttl) && i < j < |evs| && evs[i].AskExecute?
    requires run[i].inflight.None? && evs[i].planID in run[i].plans
    requires Starts(run[j], evs[j], run[j + 1])
    ensures evs[i].planID != evs[j].planID
  {
    RunKeepsPlans(run, evs, ttl, i);
    ExecuteStarts(run, evs, ttl, j);
    assert run[i + 1] == Step(run[i], evs[i], ttl);
    if evs[i].planID != "" {
      GoneForGood(run, evs, ttl, i + 1, j, evs[i].planID);
    }
  }

  // ---- answers over whole sessions ----

  lemma {:induction false} AnswerAt(out: seq<Out>, no: nat) returns (i: nat)
    requires Answers(out, no) > 0
    ensures i < |out| && out[i].last && out[i].ask.no == no
  {
    var n := |out| - 1;
    if out[n].last && out[n].ask.no == no {
      i := n;
    } else {
      i := AnswerAt(out[..n], no);
    }
  }

  lemma {:induction false} AnswersTwo(out: seq<Out>, no: nat, i: nat, j: nat)
    requires i < j < |out| && out[i].last && out[j].last && out[i].ask.no == no && out[j].ask.no == no
    ensures Answers(out, no) >= 2
  {
    var n := |out| - 1;
    if j < n {
      AnswersTwo(out[..n], no, i, j);
    } else {
      AnswersSome(out[..n], no, i);
    }
  }

  lemma {:induction false} AnswersSome(out: seq<Out>, no: nat, i: nat)
    requires i < |out| && out[i].last && out[i].ask.no == no
    ensures Answers(out, no) >= 1
  {
    if i < |out| - 1 { AnswersSome(out[..|out| - 1], no, i); }
  }

  /** With nothing in flight and nothing being answered, every request handled has
      had exactly one terminal event, under its own id. */
  lemma AnsweredOnce(run: seq<State>, evs: seq<Event>, ttl: int, n: nat, no: nat) returns (i: nat)
    requires IsRun(run, evs, ttl) && n < |run| && no < |run[n].ids|
    requires run[n].inflight.None? && run[n].asking == map[]
    ensures i < |run[n].out| && run[n].out[i].last && run[n].out[i].ask == Ask(run[n].ids[no], no)
    ensures forall j | 0 <= j < |run[n].out| && run[n].out[j].last && run[n].out[j].ask.no == no :: j == i
  {
    RunKeepsRequests(run, evs, ttl, n);
    var s := run[n];
    assert Answers(s.out, no) + Due(s, no) == 1;
    i := AnswerAt(s.out, no);
    assert Known(s, s.out[i].ask);
    forall j | 0 <= j < |s.out| && s.out[j].last && s.out[j].ask.no == no ensures j == i {
      if j != i { AnswersTwo(s.out, no, if i < j then i else j, if i < j then j else i); }
    }
  }

  /** No operation is in the slot once its answer is out: the slot was free as the
      terminal event was sent, and is never that request's again. */
  lemma FreeOnceAnswered(run: seq<State>, evs: seq<Event>, ttl: int, n: nat, i: nat)
    requires IsRun(run, evs, ttl) && n < |run| && i < |run[n].out| && run[n].out[i].last
    ensures run[n].out[i].slot != Some(run[n].out[i].ask.no) && Slot(run[n]) != Some(run[n].out[i].ask.no)
  {
    RunKeepsRequests(run, evs, ttl, n);
    AnswersSome(run[n].out, run[n].out[i].ask.no, i);
    assert Answers(run[n].out, run[n].out[i].ask.no) + Due(run[n], run[n].out[i].ask.no) == 1;
  }

  /** Both have their terminal event, first's before then's. */
  ghost predicate AnsweredInOrder(out: seq<Out>, first: nat, second: nat) {
    exists i, j :: 0 <= i < j < |out| && out[i].last && out[i].ask.no == first && out[j].last && out[j].ask.no == second
      && out[j].code == None
  }

  ghost predicate Waiting(s: State, target: nat, a: Ask) {
    s.inflight.Some? && s.inflight.value.ask.no == target && s.inflight.value.stopped && a in s.inflight.value.cancels
  }

  lemma OrderStays(out: seq<Out>, more: seq<Out>, first: nat, second: nat)
    requires AnsweredInOrder(out, first, second) && out <= more
    ensures AnsweredInOrder(more, first, second)
  {
  }

  lemma EndAnswersWaiting(s: State, code: Option<Code>, target: nat, a: Ask)
    requires Waiting(s, target, a)
    ensures AnsweredInOrder(Ended(s, code).out, target, a.no)
  {
    var op := s.inflight.value;
    var k :| 0 <= k < |op.cancels| && op.cancels[k] == a;
    var out := Ended(s, code).out;
    assert out == s.out + [Out(op.ask, true, code, None)] + Dones(op.cancels);
    assert out[|s.out|].last && out[|s.out|].ask.no == target;
    assert out[|s.out| + 1 + k] == Dones(op.cancels)[k];
  }

  lemma OutGrows(s: State, e: Event, ttl: int)
    requires Enabled(s, e)
    ensures s.out <= Step(s, e, ttl).out
  {
    match e
    case EndScan(canceled, rules) =>
      var sc := s.scan.value;
      EndedGrows(s.(scan :=
        Some(if canceled then sc.(status := Canceled) else sc.(status := Finished, rules := rules))), None);
    case End(code) => EndedGrows(s, code);
    case AskPlan(re, id, reading, now, unmatched, planID) =>
      PlanGrows(Counted(s, re), Next(s, re), id, reading, now, unmatched, planID, ttl);
    case _ =>
  }

  lemma EndedGrows(s: State, code: Option<Code>)
    requires s.inflight.Some?
    ensures s.out <= Ended(s, code).out
  {
    assert Ended(s, code).out ==
      s.out + ([Out(s.inflight.value.ask, true, code, None)] + Dones(s.inflight.value.cancels));
  }

  lemma PlanGrows(s: State, a: Ask, id: ScanID, reading: Reading, now: int, unmatched: bool, planID: string, ttl: int)
    ensures s.out <= OnPlan(s, a, id, reading, now, unmatched, planID, ttl).out
  {
  }

  /** A cancel's answer: it waits with its target, or came after it. */
  ghost predicate Behind(s: State, target: nat, a: Ask) {
    Waiting(s, target, a) || AnsweredInOrder(s.out, target, a.no)
  }

  lemma StaysBehind(s: State, e: Event, ttl: int, target: nat, a: Ask)
    requires PlansInv(s) && Enabled(s, e) && Behind(s, target, a)
    ensures Behind(Step(s, e, ttl), target, a)
  {
    if AnsweredInOrder(s.out, target, a.no) {
      OutGrows(s, e, ttl);
      OrderStays(s.out, Step(s, e, ttl).out, target, a.no);
    } else {
      WaitOn(s, e, ttl, target, a);
    }
  }

  lemma WaitOn(s: State, e: Event, ttl: int, target: nat, a: Ask)
    requires PlansInv(s) && Enabled(s, e) && Waiting(s, target, a)
    ensures Waiting(Step(s, e, ttl), target, a) || AnsweredInOrder(Step(s, e, ttl).out, target, a.no)
  {
    match e
    case EndScan(canceled, rules) =>
      var sc := s.scan.value;
      EndAnswersWaiting(s.(scan :=
        Some(if canceled then sc.(status := Canceled) else sc.(status := Finished, rules := rules))), None, target, a);
    case End(code) => EndAnswersWaiting(s, code, target, a);
    case _ =>
  }

  lemma CancelJoins(s: State, re: string, target: string)
    requires target != "" && s.inflight.Some? && s.inflight.value.ask.re == target
    ensures Waiting(OnCancel(Counted(s, re), Next(s, re), target), s.inflight.value.ask.no, Next(s, re))
  {
  }

  /** A cancel of the operation in flight tells it to stop and waits; its done comes
      after that operation's terminal event. */
  lemma {:induction false} CancelWaits(run: seq<State>, evs: seq<Event>, ttl: int, i: nat, n: nat)
    requires IsRun(run, evs, ttl) && i < n < |run| && evs[i].AskCancel? && evs[i].target != ""
    requires run[i].inflight.Some? && run[i].inflight.value.ask.re == evs[i].target
    ensures Behind(run[n], run[i].inflight.value.ask.no, Next(run[i], evs[i].re))
  {
    RunKeepsPlans(run, evs, ttl, n - 1);
    if n == i + 1 {
      CancelJoins(run[i], evs[i].re, evs[i].target);
    } else {
      CancelWaits(run, evs, ttl, i, n - 1);
      StaysBehind(run[n - 1], evs[n - 1], ttl, run[i].inflight.value.ask.no, Next(run[i], evs[i].re));
    }
  }

  // ---- the session object ----

  class ScanState {
    const num: nat
    var status: Status
    var rules: set<string>

    constructor (num: nat)
      ensures this.num == num && status == Running && rules == {}
    {
      this.num := num;
      status, rules := Running, {};
    }
  }

  class Operation {
    const kind: Work
    const ask: Ask
    const planID: string
    const scan: ScanState?
    var stopped: bool
    var cancels: seq<Ask>
    var built: bool

    constructor (kind: Work, ask: Ask, planID: string, scan: ScanState?)
      ensures this.kind == kind && this.ask == ask && this.planID == planID && this.scan == scan
      ensures !stopped && cancels == [] && !built
    {
      this.kind, this.ask, this.planID, this.scan := kind, ask, planID, scan;
      stopped, cancels, built := false, [], false;
    }
  }

  /** A held plan, its scan null once it was pruned for age. */
  datatype HeldPlan = HeldPlan(scan: ScanState?, created: int)

  function HeldView(h: HeldPlan): Held {
    if h.scan == null then Pruned(h.created) else Held(h.scan.num, h.created)
  }

  function Aged(h: HeldPlan, seen: bool, now: int, ttl: int): Held {
    if seen && Expired(HeldView(h), now, ttl) then Pruned(h.created) else HeldView(h)
  }

  /** The plans but those still to be looked at have lost their body when too old. */
  ghost predicate AgedTo(before: map<string, HeldPlan>, now: map<string, HeldPlan>, todo: set<string>, at: int,
                         ttl: int) {
    && now.Keys == before.Keys && todo <= before.Keys
    && (forall id <- now :: HeldView(now[id]) == Aged(before[id], id !in todo, at, ttl))
    && forall id <- now :: now[id].scan != null ==> now[id].scan == before[id].scan
  }

  lemma AgedOne(before: map<string, HeldPlan>, now: map<string, HeldPlan>, todo: set<string>, id: string, at: int,
                ttl: int)
    requires AgedTo(before, now, todo, at, ttl) && id in todo
    ensures AgedTo(before,
                   if now[id].scan != null && at - now[id].created > ttl then now[id := HeldPlan(null, now[id].created)]
                   else now,
                   todo - {id}, at, ttl)
  {
  }

  function NumOf(scan: ScanState?): nat {
    if scan == null then 0 else scan.num
  }

  class Session {
    const ttl: int
    var scanSeq: nat
    var scan: ScanState?
    var plans: map<string, HeldPlan>
    var inflight: Operation?
    var asking: map<nat, string>
    var ids: seq<string>
    var out: seq<Out>
    ghost var minted: set<string>

    ghost function View(): State
      reads this, scan, inflight
    {
      State(scanSeq,
            if scan == null then None else Some(Scan(scan.num, scan.status, scan.rules)),
            map id | id in plans :: HeldView(plans[id]),
            if inflight == null then None
            else Some(Op(inflight.kind, inflight.ask, inflight.stopped, inflight.cancels, inflight.planID,
              NumOf(inflight.scan), inflight.built)),
            asking, ids, out, minted)
    }

    /** Held plans and the execute in flight point at the current scan itself. */
    ghost predicate Valid()
      reads this, scan, inflight
    {
      && (forall id <- plans :: plans[id].scan != null ==> plans[id].scan == scan)
      && (inflight != null && inflight.kind == ExecuteWork ==> inflight.scan != null && inflight.scan == scan)
    }

    constructor (ttl: int)
      ensures Valid() && View() == START && this.ttl == ttl
    {
      this.ttl := ttl;
      scanSeq, scan, plans, inflight, asking, ids, out, minted := 0, null, map[], null, map[], [], [], {};
    }

    method Send(a: Ask, last: bool, code: Option<Code>)
      requires Valid()
      modifies this`out
      ensures Valid() && View() == Emit(old(View()), a, last, code)
    {
      out := out + [Out(a, last, code, if inflight == null then None else Some(inflight.ask.no))];
    }

    method Read(re: string) returns (a: Ask)
      requires Valid()
      modifies this`ids
      ensures Valid() && a == Next(old(View()), re) && View() == Counted(old(View()), re)
    {
      a := Ask(re, |ids|);
      ids := ids + [re];
    }

    /** end: the slot is freed, the terminal event sent, the waiting cancels answered. */
    method End(code: Option<Code>)
      requires Valid() && inflight != null
      modifies this`inflight, this`out
      ensures Valid() && View() == Ended(old(View()), code)
    {
      var op := inflight;
      inflight := null;
      Send(op.ask, true, code);
      ghost var sent := out;
      for i := 0 to |op.cancels|
        invariant inflight == null && Valid()
        invariant out == sent + Dones(op.cancels)[..i]
      {
        assert Dones(op.cancels)[..i + 1] == Dones(op.cancels)[..i] + [Dones(op.cancels)[i]];
        Send(op.cancels[i], true, None);
      }
      assert Dones(op.cancels)[..|op.cancels|] == Dones(op.cancels);
    }

    method NewScan(a: Ask)
      requires Valid() && inflight == null
      modifies this
      ensures Valid() && View() == BeginScan(old(View()), a)
    {
      inflight := new Operation(ScanWork, a, "", null);
      scanSeq := scanSeq + 1;
      scan := new ScanState(scanSeq);
      plans := map[];
    }

    method StartScan(re: string, reading: Reading)
      requires Valid()
      modifies this
      ensures Valid() && View() == Step(old(View()), AskScan(re, reading), ttl)
    {
      var a := Read(re);
      if inflight != null {
        Send(a, true, Some(Busy));
      } else if reading == Unreadable {
        Send(a, true, Some(RulesFailed));
      } else {
        NewScan(a);
      }
    }

    method EndScan(canceled: bool, rules: set<string>)
      requires Valid() && Enabled(View(), Event.EndScan(canceled, rules))
      modifies this, scan
      ensures Valid() && View() == Step(old(View()), Event.EndScan(canceled, rules), ttl)
    {
      if canceled {
        scan.status := Canceled;
      } else {
        scan.status := Finished;
        scan.rules := rules;
      }
      End(None);
    }

    method FindScan(id: ScanID) returns (found: ScanState?, code: Option<Code>)
      requires Valid()
      ensures code == ScanFor(View(), id)
      ensures code.None? ==> found != null && found == scan
    {
      if id == NoID {
        return null, Some(BadRequest);
      }
      if scan != null && id == Own(scan.num) {
        match scan.status
        case Running => return null, Some(ScanRunning);
        case Canceled => return null, Some(ScanCanceled);
        case Spent => return null, Some(ScanSpent);
        case Finished => return scan, None;
      }
      if (id.Own? || id.Respelled?) && scan != null && 1 <= id.num < scan.num {
        return null, Some(ScanSuperseded);
      }
      return null, Some(UnknownScan);
    }

    /** The loop over the held plans, in any order. */
    method PruneOld(now: int)
      requires Valid()
      modifies this`plans
      ensures Valid() && View() == old(View()).(plans := Prune(old(View()).plans, now, ttl))
    {
      var todo := plans.Keys;
      ghost var before := plans;
      while todo != {}
        invariant AgedTo(before, plans, todo, now, ttl)
        decreases todo
      {
        var id :| id in todo;
        AgedOne(before, plans, todo, id, now, ttl);
        if plans[id].scan != null && now - plans[id].created > ttl {
          plans := plans[id := HeldPlan(null, plans[id].created)];
        }
        todo := todo - {id};
      }
    }

    /** The plan is held, old ones pruned, and the request answered. */
    method Hold(a: Ask, found: ScanState, now: int, planID: string)
      requires Valid() && found == scan
      modifies this`plans, this`minted, this`out
      ensures Valid() && View() == HoldPlan(old(View()), a, now, planID, ttl)
    {
      PruneOld(now);
      ghost var pruned := View();
      plans := plans[planID := HeldPlan(found, now)];
      minted := minted + {planID};
      assert View().plans == pruned.plans[planID := Held(found.num, now)];
      Send(a, false, None);
      Send(a, true, None);
    }

    method Plan(re: string, id: ScanID, reading: Reading, now: int, unmatched: bool, planID: string)
      requires Valid() && Enabled(View(), AskPlan(re, id, reading, now, unmatched, planID))
      modifies this
      ensures Valid() && View() == Step(old(View()), AskPlan(re, id, reading, now, unmatched, planID), ttl)
    {
      var a := Read(re);
      var found, code := FindScan(id);
      if code.None? {
        code := TurnedOff(reading, found.rules);
      }
      if code.Some? {
        Send(a, true, code);
        return;
      }
      if unmatched {
        Send(a, true, Some(Unmatched));
        return;
      }
      Hold(a, found, now, planID);
    }

    method StartExecute(re: string, planID: string, reading: Reading, now: int)
      requires Valid()
      modifies this
      ensures Valid() && View() == Step(old(View()), AskExecute(re, planID, reading, now), ttl)
    {
      var a := Read(re);
      if planID == "" {
        Send(a, true, Some(BadRequest));
        return;
      }
      if inflight != null {
        Send(a, true, Some(Busy));
        return;
      }
      if planID !in plans {
        Send(a, true, Some(UnknownPlan));
        return;
      }
      TakePlan(a, planID, reading, now);
    }

    /** The plan comes off the shelf, and runs or is refused. */
    method TakePlan(a: Ask, planID: string, reading: Reading, now: int)
      requires Valid() && planID != "" && inflight == null && planID in plans
      modifies this
      ensures Valid() && View() == OnExecute(old(View()), a, planID, reading, now, ttl)
    {
      var held := plans[planID];
      ghost var before := View();
      plans := plans - {planID};
      assert View().plans == before.plans - {planID};
      if held.scan == null || now - held.created > ttl {
        Send(a, true, Some(PlanExpired));
        return;
      }
      var code := TurnedOff(reading, held.scan.rules);
      if code.Some? {
        Send(a, true, code);
        return;
      }
      inflight := new Operation(ExecuteWork, a, planID, held.scan);
    }

    /** runExecute, once its executor is built. */
    method Build()
      requires Valid() && Enabled(View(), BuildExecutor)
      modifies this, scan, inflight
      ensures Valid() && View() == Step(old(View()), BuildExecutor, ttl)
    {
      plans := map[];
      inflight.scan.status := Spent;
      inflight.built := true;
    }

    method Cancel(re: string, target: string)
      requires Valid()
      modifies this, inflight
      ensures Valid() && View() == Step(old(View()), AskCancel(re, target), ttl)
    {
      var a := Read(re);
      if target == "" {
        Send(a, true, Some(BadRequest));
        return;
      }
      if inflight == null || inflight.ask.re != target {
        Send(a, true, None);
        return;
      }
      inflight.stopped := true;
      inflight.cancels := inflight.cancels + [a];
    }

    /** startTick and startAerialsSwitch, past the checks made without the lock. */
    method StartWork(re: string, kind: Work)
      requires Valid() && (kind == TickWork || kind == SwitchWork)
      modifies this
      ensures Valid() && View() == Step(old(View()), AskWork(re, kind), ttl)
    {
      var a := Read(re);
      if inflight != null {
        Send(a, true, Some(Busy));
      } else {
        inflight := new Operation(kind, a, "", null);
      }
    }
  }
}
