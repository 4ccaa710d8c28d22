/**
 What may be kept for replay, and for how long: over all runs, however long
 claims are held, and told in terms of what requests asked and handlers wrote.
 */
module IdempotencyAnswers {
  import opened Prelude
  import opened Idempotency

  /** The k-th committed batch was request id's: 200, a body, every sub-response
      ok, and no call to a handler whose result is secret. */
  ghost predicate CleanRun(s: State, k: int, id: int, slot: Slot, hash: string, body: string) {
    && 0 <= k < |s.commits| && id in s.requests
    && s.requests[id].slot == slot && s.requests[id].hash == hash
    && s.commits[k].slot == slot && s.commits[k].hash == hash && s.commits[k].body == body
    && s.commits[k].calls == s.requests[id].calls
    && s.commits[k].calls.Some? && (forall j :: 0 <= j < |s.commits[k].calls.value| ==> !s.commits[k].calls.value[j])
    && s.commits[k].wrote.Some? && s.commits[k].wrote.value.status == 200
    && s.commits[k].wrote.value.body == body && body != ""
    && s.commits[k].wrote.value.envelope.Some?
    && (forall j :: 0 <= j < |s.commits[k].wrote.value.envelope.value| ==>
         s.commits[k].wrote.value.envelope.value[j].ok && !s.commits[k].wrote.value.envelope.value[j].hasError)
  }

  ghost predicate Clean(s: State, slot: Slot, hash: string, body: string) {
    exists k, id :: CleanRun(s, k, id, slot, hash, body)
  }

  /** Everything stored, on its way there or replayed is a clean batch's. */
  ghost predicate AllClean(s: State) {
    && (forall slot :: slot in s.tables.responses ==> Clean(s, slot, s.tables.responses[slot].hash, s.tables.responses[slot].body))
    && (forall id :: id in s.requests ==> PcClean(s, s.requests[id]))
  }

  ghost predicate PcClean(s: State, r: Request) {
    && (r.pc.Storing? ==> Clean(s, r.slot, r.hash, r.pc.body) && !r.pc.answer.Replayed?)
    && ((r.pc.Releasing? || r.pc.Done?) && r.pc.answer.Replayed? ==> Clean(s, r.slot, r.hash, r.pc.answer.body))
  }

  /** Commits and requests only add up, and requests keep what they asked. */
  ghost predicate Extends(s: State, s': State) {
    && s.commits <= s'.commits
    && forall id :: id in s.requests ==>
         id in s'.requests && s'.requests[id].slot == s.requests[id].slot && s'.requests[id].hash == s.requests[id].hash &&
         s'.requests[id].calls == s.requests[id].calls
  }

  /** One request moves on, whatever else changes. */
  ghost predicate OneMoved(s: State, id: int, s': State) {
    id in s.requests && id in s'.requests && s.commits <= s'.commits && Moved(s, id, s'.requests[id].pc, s')
  }

  lemma LookupMoves(s: State, id: int, event: Event)
    requires id in s.requests && (s.requests[id].pc.FirstLookup? || s.requests[id].pc.SecondLookup?)
    ensures OneMoved(s, id, AdvanceLookup(s, id, event))
  {
  }

  lemma ClaimMoves(s: State, id: int, event: Event)
    requires id in s.requests
    ensures OneMoved(s, id, AdvanceClaim(s, id, event))
  {
  }

  lemma RunMoves(s: State, id: int, event: Event)
    requires id in s.requests && s.requests[id].pc.Running?
    ensures OneMoved(s, id, AdvanceRun(s, id, event))
  {
    hide Kept, Succeeded, CommitOf;
  }

  lemma StoreMoves(s: State, id: int, event: Event)
    requires id in s.requests && s.requests[id].pc.Storing?
    ensures OneMoved(s, id, AdvanceStore(s, id, event))
  {
  }

  lemma ReleaseMoves(s: State, id: int, event: Event)
    requires id in s.requests && s.requests[id].pc.Releasing?
    ensures OneMoved(s, id, AdvanceRelease(s, id, event))
  {
  }

  lemma CrashMoves(s: State, id: int, committed: bool)
    requires id in s.requests
    ensures OneMoved(s, id, CrashOne(s, id, committed)) || CrashOne(s, id, committed) == s
  {
    hide CommitOf;
  }

  lemma AdvanceMoves(s: State, id: int, event: Event)
    requires id in s.requests
    ensures OneMoved(s, id, AdvanceOne(s, id, event)) || AdvanceOne(s, id, event) == s
  {
    hide AdvanceLookup, AdvanceClaim, AdvanceRun, AdvanceStore, AdvanceRelease, OneMoved;
    match s.requests[id].pc
    case FirstLookup => LookupMoves(s, id, event);
    case Claiming => ClaimMoves(s, id, event);
    case SecondLookup(_, _) => LookupMoves(s, id, event);
    case Running(_) => RunMoves(s, id, event);
    case Storing(_, _, _) => StoreMoves(s, id, event);
    case Releasing(_, _) => ReleaseMoves(s, id, event);
    case Done(_) =>
  }

  lemma StepExtends(s: State, step: Step)
    ensures Extends(s, Next(s, step))
  {
    hide AdvanceOne, CrashOne;
    if step.Advance? && step.id in s.requests { AdvanceMoves(s, step.id, step.event); }
    if step.Crash? && step.id in s.requests { CrashMoves(s, step.id, step.committed); }
  }

  lemma StillClean(s: State, s': State, slot: Slot, hash: string, body: string)
    requires Extends(s, s') && Clean(s, slot, hash, body)
    ensures Clean(s', slot, hash, body)
  {
    var k, id :| CleanRun(s, k, id, slot, hash, body);
    assert s'.commits[k] == s.commits[k];
    assert CleanRun(s', k, id, slot, hash, body);
  }

  /** What a handler's turn does: the answer is stored next if and only if it is
      a 200 with a body whose sub-responses are all ok and no call is secret, and
      stored or not the one who asked gets it. */
  lemma HandlerStep(s: State, id: int, o: Outcome)
    requires id in s.requests && s.requests[id].pc.Running?
    ensures var s', r := Next(s, Advance(id, Works(o))), s.requests[id];
      var ok := o.envelope.Some? && forall k :: 0 <= k < |o.envelope.value| ==> o.envelope.value[k].ok && !o.envelope.value[k].hasError;
      var safe := r.calls.Some? && forall k :: 0 <= k < |r.calls.value| ==> !r.calls.value[k];
      && s'.tables == s.tables
      && s'.requests == s.requests[id := r.(pc :=
           if o.status == 200 && o.body != "" && ok && safe then Storing(r.pc.since, o.body, Fresh(o))
           else Releasing(r.pc.since, Fresh(o)))]
      && s'.commits == (if ok then s.commits + [Commit(r.slot, r.hash, o.body, r.calls, Some(o))] else s.commits)
  {
    hide AdvanceLookup, AdvanceClaim, AdvanceStore, AdvanceRelease;
    HandlerTells(o, s.requests[id].calls);
    hide Succeeded, HasSecret;
  }

  lemma HandlerTells(o: Outcome, calls: Option<seq<bool>>)
    ensures Succeeded(o) <==>
      o.envelope.Some? && forall k :: 0 <= k < |o.envelope.value| ==> o.envelope.value[k].ok && !o.envelope.value[k].hasError
    ensures HasSecret(calls) <==> !(calls.Some? && forall k :: 0 <= k < |calls.value| ==> !calls.value[k])
  {
  }

  lemma HandlerKeeps(s: State, id: int, o: Outcome)
    requires id in s.requests && s.requests[id].pc.Running? && AllClean(s)
    ensures AllClean(Next(s, Advance(id, Works(o))))
  {
    var s' := Next(s, Advance(id, Works(o)));
    HandlerStep(s, id, o);
    StepExtends(s, Advance(id, Works(o)));
    hide Next, Clean;
    EachStill(s, s');
    if s'.requests[id].pc.Storing? {
      assert CleanRun(s', |s.commits|, id, s.requests[id].slot, s.requests[id].hash, o.body);
      Witness(s', |s.commits|, id, s.requests[id].slot, s.requests[id].hash, o.body);
    }
  }

  lemma Witness(s: State, k: int, id: int, slot: Slot, hash: string, body: string)
    requires CleanRun(s, k, id, slot, hash, body)
    ensures Clean(s, slot, hash, body)
  {
  }

  lemma EachStill(s: State, s': State)
    requires Extends(s, s')
    ensures forall slot, hash, body :: Clean(s, slot, hash, body) ==> Clean(s', slot, hash, body)
  {
    forall slot, hash, body | Clean(s, slot, hash, body) ensures Clean(s', slot, hash, body) {
      StillClean(s, s', slot, hash, body);
    }
  }

  /** Nothing new is told: what changes was already clean. */
  ghost predicate Repeats(s: State, s': State) {
    && (forall slot :: slot in s'.tables.responses ==>
         || (slot in s.tables.responses && s'.tables.responses[slot] == s.tables.responses[slot])
         || (exists id :: StoredBy(s, id, slot, s'.tables.responses[slot])))
    && (forall id :: id in s'.requests ==> Retold(s, s'.requests[id], id))
  }

  ghost predicate StoredBy(s: State, id: int, slot: Slot, row: Stored) {
    id in s.requests && s.requests[id].slot == slot && s.requests[id].pc.Storing? &&
    row.hash == s.requests[id].hash && row.body == s.requests[id].pc.body
  }

  ghost predicate Retold(s: State, r: Request, id: int) {
    || (id in s.requests && r == s.requests[id])
    || (!r.pc.Storing? && ((r.pc.Releasing? || r.pc.Done?) && r.pc.answer.Replayed? ==> FromTable(s, r) || FromBefore(s, r, id)))
  }

  ghost predicate FromTable(s: State, r: Request)
    requires (r.pc.Releasing? || r.pc.Done?) && r.pc.answer.Replayed?
  {
    r.slot in s.tables.responses && s.tables.responses[r.slot].hash == r.hash &&
    s.tables.responses[r.slot].body == r.pc.answer.body
  }

  ghost predicate FromBefore(s: State, r: Request, id: int)
    requires (r.pc.Releasing? || r.pc.Done?) && r.pc.answer.Replayed?
  {
    id in s.requests && s.requests[id].pc.Releasing? && s.requests[id].(pc := r.pc) == r &&
    s.requests[id].pc.answer == r.pc.answer
  }

  lemma RepeatsKeeps(s: State, s': State)
    requires AllClean(s) && Extends(s, s') && Repeats(s, s')
    ensures AllClean(s')
  {
    hide Clean;
    EachStill(s, s');
    forall slot | slot in s'.tables.responses
      ensures Clean(s', slot, s'.tables.responses[slot].hash, s'.tables.responses[slot].body)
    {
      if !(slot in s.tables.responses && s'.tables.responses[slot] == s.tables.responses[slot]) {
        var id :| StoredBy(s, id, slot, s'.tables.responses[slot]);
        assert PcClean(s, s.requests[id]);
      }
    }
    forall id | id in s'.requests ensures PcClean(s', s'.requests[id]) {
      assert Retold(s, s'.requests[id], id);
      if id in s.requests { assert PcClean(s, s.requests[id]); }
    }
  }

  lemma LookupRepeats(s: State, id: int, event: Event)
    requires id in s.requests && (s.requests[id].pc.FirstLookup? || s.requests[id].pc.SecondLookup?)
    ensures Repeats(s, AdvanceLookup(s, id, event))
  {
  }

  lemma StoreRepeats(s: State, id: int, event: Event)
    requires id in s.requests && s.requests[id].pc.Storing? && !s.requests[id].pc.answer.Replayed?
    ensures Repeats(s, AdvanceStore(s, id, event))
  {
    var s', slot := AdvanceStore(s, id, event), s.requests[id].slot;
    if slot in s'.tables.responses && slot !in s.tables.responses {
      assert StoredBy(s, id, slot, s'.tables.responses[slot]);
    }
  }

  lemma AdvanceRepeats(s: State, id: int, event: Event)
    requires id in s.requests && AllClean(s) && !(s.requests[id].pc.Running? && event.Works?)
    ensures Repeats(s, AdvanceOne(s, id, event))
  {
    assert PcClean(s, s.requests[id]);
    hide AllClean, Clean, AdvanceLookup, AdvanceStore;
    match s.requests[id].pc
    case FirstLookup => LookupRepeats(s, id, event);
    case SecondLookup(_, _) => LookupRepeats(s, id, event);
    case Storing(_, _, _) => StoreRepeats(s, id, event);
    case _ =>
  }

  lemma StepKeepsClean(s: State, step: Step)
    requires AllClean(s)
    ensures AllClean(Next(s, step))
  {
    if step.Advance? && step.event.Works? && step.id in s.requests && s.requests[step.id].pc.Running? {
      HandlerKeeps(s, step.id, step.event.outcome);
    } else {
      StepExtends(s, step);
      hide AllClean, AdvanceOne;
      if step.Advance? && step.id in s.requests { AdvanceRepeats(s, step.id, step.event); }
      RepeatsKeeps(s, Next(s, step));
    }
  }

  lemma {:induction false} RunKeepsClean(steps: seq<Step>)
    ensures AllClean(Run(INITIAL, steps))
  {
    if steps != [] {
      hide AllClean, Next;
      RunKeepsClean(steps[..|steps| - 1]);
      StepKeepsClean(Run(INITIAL, steps[..|steps| - 1]), steps[|steps| - 1]);
    }
  }

  /** In every run each stored answer, and each answer anyone got replayed, is
      what one of the requests with that body got: it called nothing secret, and
      the answer was a 200 with a body whose sub-responses were all ok. */
  lemma StoredIsClean(steps: seq<Step>, slot: Slot, hash: string, body: string)
    requires var s := Run(INITIAL, steps);
      || (slot in s.tables.responses && s.tables.responses[slot].hash == hash && s.tables.responses[slot].body == body)
      || (exists id :: id in s.requests && s.requests[id].slot == slot && s.requests[id].hash == hash &&
           s.requests[id].pc == Done(Replayed(body)))
    ensures var s := Run(INITIAL, steps);
      exists k, id :: 0 <= k < |s.commits| && id in s.requests && CleanRun(s, k, id, slot, hash, body)
  {
    RunKeepsClean(steps);
    var s := Run(INITIAL, steps);
    assert Clean(s, slot, hash, body);
    var k, id :| CleanRun(s, k, id, slot, hash, body);
  }

  // ------------------------------------------------------------------ how long

  /** A stored answer is there, and the same, for 24 hours of the database's clock. */
  lemma {:induction false} StaysADay(s: State, steps: seq<Step>, slot: Slot)
    requires slot in s.tables.responses
    requires Run(s, steps).tables.now <= s.tables.responses[slot].at + 24 * 60 * 60 * 1000
    ensures slot in Run(s, steps).tables.responses && Run(s, steps).tables.responses[slot] == s.tables.responses[slot]
  {
    if steps != [] {
      var before, last := Run(s, steps[..|steps| - 1]), steps[|steps| - 1];
      ClockForward(before, last);
      StaysADay(s, steps[..|steps| - 1], slot);
      StaysAStep(before, last, slot);
    }
  }

  lemma ClockForward(s: State, step: Step)
    ensures s.tables.now <= Next(s, step).tables.now
    ensures Next(s, step).tables.now == s.tables.now + if step.Tick? then step.elapsed else 0
  {
    if step.Advance? && step.id in s.requests {
      match s.requests[step.id].pc
      case _ =>
    }
  }

  lemma StaysAStep(s: State, step: Step, slot: Slot)
    requires slot in s.tables.responses && Next(s, step).tables.now <= s.tables.responses[slot].at + 24 * 60 * 60 * 1000
    ensures slot in Next(s, step).tables.responses && Next(s, step).tables.responses[slot] == s.tables.responses[slot]
  {
    if step.Advance? && step.id in s.requests {
      match s.requests[step.id].pc
      case _ =>
    }
  }

  /** And cleanup leaves no answer or claim that is older. */
  lemma CleanupClears(s: State)
    ensures var t := Next(Next(s, ExpireResponses), ExpireClaims).tables;
      && (forall slot :: slot in t.responses ==> t.responses[slot].at >= s.tables.now - 24 * 60 * 60 * 1000)
      && (forall slot :: slot in s.tables.claims && s.tables.claims[slot] >= s.tables.now - 24 * 60 * 60 * 1000 ==>
           slot in t.claims && t.claims[slot] == s.tables.claims[slot])
      && (forall slot :: slot in t.claims ==> t.claims[slot] >= s.tables.now - 24 * 60 * 60 * 1000)
  {
  }
}
