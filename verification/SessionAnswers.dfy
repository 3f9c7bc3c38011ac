// What each request to the session comes to, as conditions on the session it meets:
// internal/protocol/server.go.
module SessionAnswers {
  import opened Catalog
  import opened Session

  /** The request in the slot. */
  function Holder(s: State): Option<nat> {
    match s.inflight
    case None => None
    case Some(op) => Some(op.ask.no)
  }

  /** A request that is handled and answered at once, and changes nothing else. */
  function Answered(s: State, re: string, code: Option<Code>): State {
    s.(ids := s.ids + [re], out := s.out + [Out(Ask(re, |s.ids|), true, code, Holder(s))])
  }

  /** A request that takes the slot, and is not answered yet. */
  function Started(s: State, re: string, kind: Work, planID: string, scan: nat): State {
    s.(ids := s.ids + [re], inflight := Some(Op(kind, Ask(re, |s.ids|), false, [], planID, scan, false)))
  }

  /** A line that is too long or malformed, or a request answered without the slot. */
  lemma AnsweredAtOnce(s: State, re: string, code: Option<Code>, ttl: int)
    ensures Step(s, TooLong, ttl) == Answered(s, "", Some(LineTooLong))
    ensures Step(s, Malformed(re), ttl) == Answered(s, re, Some(BadRequest))
    ensures Step(s, AtOnce(re, code), ttl) == Answered(s, re, code)
  {
  }

  /** A scan is refused while anything is in flight, and when the rules cannot be read;
      else it is the current one from then on, and no plan is held. */
  lemma ScanAsked(s: State, re: string, reading: Reading, ttl: int)
    ensures var t := Step(s, AskScan(re, reading), ttl);
      && (s.inflight.Some? ==> t == Answered(s, re, Some(Busy)))
      && (s.inflight.None? && reading == Unreadable ==> t == Answered(s, re, Some(RulesFailed)))
      && (s.inflight.None? && reading != Unreadable ==>
            t == Started(s, re, ScanWork, "", 0).(
                   scanSeq := s.scanSeq + 1, scan := Some(Scan(s.scanSeq + 1, Running, {})), plans := map[]))
  {
  }

  /** The request names the current scan as the session spelled it. */
  ghost predicate Names(s: State, id: ScanID) { s.scan.Some? && id.Own? && id.num == s.scan.value.num }

  /** A plan of a scan that may not be planned: the first reason there is. */
  lemma PlanRefused(s: State, re: string, id: ScanID, reading: Reading, now: int, unmatched: bool, planID: string,
                    ttl: int)
    requires planID != "" && planID !in s.minted
    ensures var t := Step(s, AskPlan(re, id, reading, now, unmatched, planID), ttl);
      && (id == NoID ==> t == Answered(s, re, Some(BadRequest)))
      && (Names(s, id) && s.scan.value.status == Running ==> t == Answered(s, re, Some(ScanRunning)))
      && (Names(s, id) && s.scan.value.status == Canceled ==> t == Answered(s, re, Some(ScanCanceled)))
      && (Names(s, id) && s.scan.value.status == Spent ==> t == Answered(s, re, Some(ScanSpent)))
      && (id != NoID && !Names(s, id) ==>
            t == Answered(s, re, Some(
              if (id.Own? || id.Respelled?) && s.scan.Some? && 1 <= id.num < s.scan.value.num then ScanSuperseded
              else UnknownScan)))
  {
  }

  /** A plan of the finished current scan: refused when the switch cannot be read, or a rule
      of the scan no longer runs, or an atom matched nothing; else held, the plans that are
      past their time losing their body. */
  lemma PlanDecided(s: State, re: string, id: ScanID, reading: Reading, now: int, unmatched: bool, planID: string,
                    ttl: int)
    requires planID != "" && planID !in s.minted && Names(s, id) && s.scan.value.status == Finished
    ensures var t := Step(s, AskPlan(re, id, reading, now, unmatched, planID), ttl);
      && (reading == Unreadable ==> t == Answered(s, re, Some(RulesFailed)))
      && (reading.Runs? && (exists rule <- s.scan.value.rules :: rule !in reading.ids) ==>
            t == Answered(s, re, Some(RulesChanged)))
      && (StillRuns(reading, s.scan.value.rules) && unmatched ==> t == Answered(s, re, Some(Unmatched)))
      && (StillRuns(reading, s.scan.value.rules) && !unmatched ==> PlanHeld(s, re, now, planID, ttl, t))
  {
    var a := Ask(re, |s.ids|);
    assert s.out + [Out(a, false, None, Holder(s))] + [Out(a, true, None, Holder(s))] ==
           s.out + [Out(a, false, None, Holder(s)), Out(a, true, None, Holder(s))];
  }

  /** The plan is there under its new id, its request answered with it and done. */
  ghost predicate PlanHeld(s: State, re: string, now: int, planID: string, ttl: int, t: State) {
    var a := Ask(re, |s.ids|);
    && s.scan.Some?
    && t == s.(ids := s.ids + [re], plans := t.plans, minted := s.minted + {planID},
               out := s.out + [Out(a, false, None, Holder(s)), Out(a, true, None, Holder(s))])
    && t.plans.Keys == s.plans.Keys + {planID} && t.plans[planID] == Held(s.scan.value.num, now)
    && forall id <- s.plans | id != planID ::
         t.plans[id] == if s.plans[id].Held? && now - s.plans[id].created <= ttl then s.plans[id]
                        else Pruned(s.plans[id].created)
  }

  /** An execute refused before its plan is looked up. */
  lemma ExecuteRefused(s: State, re: string, planID: string, reading: Reading, now: int, ttl: int)
    ensures var t := Step(s, AskExecute(re, planID, reading, now), ttl);
      && (planID == "" ==> t == Answered(s, re, Some(BadRequest)))
      && (planID != "" && s.inflight.Some? ==> t == Answered(s, re, Some(Busy)))
      && (planID != "" && s.inflight.None? && planID !in s.plans ==> t == Answered(s, re, Some(UnknownPlan)))
  {
  }

  /** Else its plan is taken off the shelf, and refused past its time, or when the switch
      cannot be read, or a rule of the scan no longer runs; else it starts. */
  lemma ExecuteDecided(s: State, re: string, planID: string, reading: Reading, now: int, ttl: int)
    requires planID != "" && s.inflight.None? && planID in s.plans && s.scan.Some?
    ensures var t, taken := Step(s, AskExecute(re, planID, reading, now), ttl), s.(plans := s.plans - {planID});
      var held := s.plans[planID];
      if held.Pruned? || now - held.created > ttl then t == Answered(taken, re, Some(PlanExpired))
      else
        && (reading == Unreadable ==> t == Answered(taken, re, Some(RulesFailed)))
        && (reading.Runs? && (exists rule <- s.scan.value.rules :: rule !in reading.ids) ==>
              t == Answered(taken, re, Some(RulesChanged)))
        && (StillRuns(reading, s.scan.value.rules) ==> t == Started(taken, re, ExecuteWork, planID, held.scan))
  {
  }

  /** A cancel without a target is refused, one of nothing in flight is done at once, any
      other tells what is in flight to stop, and waits with the cancels before it. */
  lemma CancelAsked(s: State, re: string, target: string, ttl: int)
    ensures var t := Step(s, AskCancel(re, target), ttl);
      && (target == "" ==> t == Answered(s, re, Some(BadRequest)))
      && (target != "" && (s.inflight.None? || s.inflight.value.ask.re != target) ==> t == Answered(s, re, None))
      && (target != "" && s.inflight.Some? && s.inflight.value.ask.re == target ==>
            var op := s.inflight.value;
            t == s.(ids := s.ids + [re],
                    inflight := Some(op.(stopped := true, cancels := op.cancels + [Ask(re, |s.ids|)]))))
  {
  }

  /** A tick or a switch is refused while anything is in flight. */
  lemma WorkAsked(s: State, re: string, kind: Work, ttl: int)
    requires kind in {TickWork, SwitchWork}
    ensures Step(s, AskWork(re, kind), ttl) ==
      if s.inflight.Some? then Answered(s, re, Some(Busy)) else Started(s, re, kind, "", 0)
  {
  }

  /** What is in flight ends: the slot is free as its terminal event goes out, and as every
      cancel that waited on it is answered after it, in order. */
  lemma WorkEnds(s: State, code: Option<Code>, ttl: int)
    requires Enabled(s, End(code))
    ensures Over(s, code, Step(s, End(code), ttl))
  {
  }

  ghost predicate Over(s: State, code: Option<Code>, t: State)
    requires s.inflight.Some?
  {
    var op, n := s.inflight.value, |s.out|;
    && t == s.(inflight := None, out := t.out)
    && |t.out| == n + 1 + |op.cancels| && t.out[..n] == s.out && t.out[n] == Out(op.ask, true, code, None)
    && forall i | 0 <= i < |op.cancels| :: t.out[n + 1 + i] == Out(op.cancels[i], true, None, None)
  }

  /** A scan ends canceled, with no rules to plan by, or finished with those it found; its
      request is done either way. */
  lemma ScanEnds(s: State, canceled: bool, rules: set<string>, ttl: int)
    requires Enabled(s, EndScan(canceled, rules))
    ensures var sc := s.scan.value;
      Over(s.(scan := Some(if canceled then Scan(sc.num, Canceled, sc.rules) else Scan(sc.num, Finished, rules))), None,
           Step(s, EndScan(canceled, rules), ttl))
  {
  }

  /** An executor once built spends the scan of its plan, and no plan stays held. */
  lemma BuildSpends(s: State, ttl: int)
    requires PlansInv(s) && Enabled(s, BuildExecutor)
    ensures var sc, op := s.scan.value, s.inflight.value;
      Step(s, BuildExecutor, ttl) ==
      s.(plans := map[], scan := Some(Scan(sc.num, Spent, sc.rules)), inflight := Some(op.(built := true)))
  {
  }

  /** What goes out meanwhile changes nothing but the stream: news of what is in flight, and
      the answers to requests beside it. A shutdown tells what is in flight to stop. */
  lemma Meanwhile(s: State, re: string, no: nat, code: Option<Code>, ttl: int)
    ensures s.inflight.Some? ==>
      Step(s, Progress, ttl) == s.(out := s.out + [Out(s.inflight.value.ask, false, None, Holder(s))])
    ensures Step(s, AskAside(re), ttl) == s.(ids := s.ids + [re], asking := s.asking[|s.ids| := re])
    ensures no in s.asking ==>
      Step(s, AnswerAside(no, code), ttl) ==
      s.(asking := s.asking - {no}, out := s.out + [Out(Ask(s.asking[no], no), true, code, Holder(s))])
    ensures Step(s, StopAll, ttl) ==
      if s.inflight.None? then s else s.(inflight := Some(s.inflight.value.(stopped := true)))
  {
  }
}
