/**
 The middleware itself: statements over two mutable tables, called in the order
 the request code calls them, with any steps of other requests in between.
 Each method is tied to one step of the Idempotency machine, and a whole
 request to a run of it.
 */
module IdempotencyStore {
  import opened Prelude
  import opened Idempotency

  /** batchSucceeded: stops at the first sub-response that is not a clean success. */
  method BatchSucceeded(o: Outcome) returns (ok: bool)
    ensures ok == Succeeded(o)
  {
    if o.envelope.None? { return false; }
    var subs := o.envelope.value;
    for k := 0 to |subs|
      invariant forall j :: 0 <= j < k ==> subs[j].ok && !subs[j].hasError
    {
      if !subs[k].ok || subs[k].hasError { return false; }
    }
    return true;
  }

  /** batchHasSecret: stops at the first call whose result is secret. */
  method BatchHasSecret(calls: Option<seq<bool>>) returns (secret: bool)
    ensures secret == HasSecret(calls)
  {
    if calls.None? { return true; }
    for k := 0 to |calls.value|
      invariant forall j :: 0 <= j < k ==> !calls.value[j]
    {
      if calls.value[k] { return true; }
    }
    return false;
  }

  /** How one request goes: what happens around and inside each statement. */
  datatype Plan = Plan(gaps: seq<seq<Step>>, lookup: Event, claim: Event, again: Event, handler: Event,
                       store: Event, release: Event)

  predicate ByOthers(steps: seq<Step>, me: int) {
    forall k :: 0 <= k < |steps| ==> !ActsFor(steps[k], me)
  }

  predicate ActsFor(step: Step, me: int) {
    match step
    case Arrive(id, _, _, _) => id == me
    case Advance(id, _) => id == me
    case Crash(id, _) => id == me
    case _ => false
  }

  /** The request's own process lives through these steps. */
  predicate Survives(steps: seq<Step>, me: int) {
    forall k :: 0 <= k < |steps| ==> !(steps[k].Crash? && steps[k].id == me)
  }

  predicate ValidPlan(p: Plan, me: int) {
    |p.gaps| == 7 && forall k :: 0 <= k < 7 ==> ByOthers(p.gaps[k], me)
  }

  /** What a request is told that did not run. */
  predicate NotRun(a: Answer) {
    a.Replayed? || a.Mismatch? || a.InProgress? || a.Unavailable?
  }

  class World {
    var now: int
    var responses: map<Slot, Stored>
    var claims: map<Slot, int>
    var requests: map<int, Request>
    var commits: seq<Commit>
    var losses: multiset<Slot>

    function State(): State
      reads this
    {
      Idempotency.State(Tables(now, responses, claims), requests, commits, losses)
    }

    constructor ()
      ensures State() == INITIAL
    {
      now, responses, claims := 0, map[], map[];
      requests, commits, losses := map[], [], multiset{};
    }

    // -------------------------------------------------------- SQL statements

    method Lookup(slot: Slot) returns (row: Option<Stored>)
      ensures row.Some? <==> slot in responses
      ensures row.Some? ==> row.value == responses[slot]
    {
      row := if slot in responses then Some(responses[slot]) else None;
    }

    /** INSERT .. ON CONFLICT DO UPDATE .. WHERE the claim is stale RETURNING true. */
    method Claim(slot: Slot) returns (claimed: bool)
      modifies this`claims
      ensures claimed == old(Claimable(State().tables, slot))
      ensures State() == old(State()).(tables := old(AfterClaim(State().tables, slot)))
    {
      claimed := slot !in claims || claims[slot] < now - CLAIM_STALE;
      if claimed { claims := claims[slot := now]; }
    }

    method Release(slot: Slot)
      modifies this`claims
      ensures State() == old(State()).(tables := old(AfterRelease(State().tables, slot)))
    {
      claims := claims - {slot};
    }

    /** INSERT .. ON CONFLICT DO NOTHING. */
    method Store(slot: Slot, hash: string, body: string)
      modifies this`responses
      ensures State() == old(State()).(tables := old(AfterStore(State().tables, slot, hash, body)))
    {
      if slot !in responses { responses := responses[slot := Stored(hash, body, now)]; }
    }

    /** Cleanup: the response rows, then the claims left behind. */
    method Cleanup()
      modifies this
      ensures State() == Run(old(State()), [ExpireResponses, ExpireClaims])
    {
      ghost var before := State();
      var expired := Expired(State().tables);
      responses, losses := responses - expired, losses + multiset(expired);
      ghost var between := State();
      claims := claims - StaleClaims(State().tables);
      FoldSnoc(Next, before, [], ExpireResponses);
      FoldSnoc(Next, before, [ExpireResponses], ExpireClaims);
      assert [] + [ExpireResponses] == [ExpireResponses];
      assert [ExpireResponses] + [ExpireClaims] == [ExpireResponses, ExpireClaims];
      assert between == Next(before, ExpireResponses);
    }

    // ---------------------------------------------------------- interference

    /** Other requests, the clock and the cleanup job take these steps. */
    method Others(steps: seq<Step>, me: int)
      requires me in requests && ByOthers(steps, me)
      modifies this
      ensures State() == Run(old(State()), steps)
      ensures me in requests && requests[me] == old(requests[me])
    {
      var i := 0;
      assert steps[..0] == [];
      while i < |steps|
        invariant 0 <= i <= |steps|
        invariant State() == Run(old(State()), steps[..i])
        invariant me in requests && requests[me] == old(requests[me])
      {
        OthersUntouched(State(), steps[i], me);
        FoldSnoc(Next, old(State()), steps[..i], steps[i]);
        assert steps[..i + 1] == steps[..i] + [steps[i]];
        Install(Next(State(), steps[i]));
        i := i + 1;
      }
      assert steps[..i] == steps;
    }

    method Install(s: State)
      modifies this
      ensures State() == s
    {
      now, responses, claims := s.tables.now, s.tables.responses, s.tables.claims;
      requests, commits, losses := s.requests, s.commits, s.losses;
    }

    method At(id: int, pc: Pc)
      requires id in requests
      modifies this`requests
      ensures State() == Goto(old(State()), id, pc)
    {
      requests := requests[id := requests[id].(pc := pc)];
    }

    // ------------------------------------------------------------ the request

    /** replay, and what `begin` does with it: None when nothing was written. */
    method Replay(id: int, event: Event) returns (answer: Option<Answer>)
      requires id in requests && (requests[id].pc.FirstLookup? || requests[id].pc.SecondLookup?)
      modifies this
      ensures State() == Next(old(State()), Advance(id, event))
      ensures var row := if requests[id].slot in responses then Some(responses[requests[id].slot]) else None;
        answer == if event.Fails? then Some(Unavailable) else if row.None? then None
                  else if row.value.hash == requests[id].hash then Some(Replayed(row.value.body)) else Some(Mismatch)
      ensures answer.Some? ==> requests[id].pc == Leave(old(requests[id].pc), answer.value)
      ensures answer.None? && old(requests[id].pc.FirstLookup?) ==> requests[id].pc == Claiming
      ensures answer.None? && old(requests[id].pc.SecondLookup?) ==>
        requests[id].pc == if old(requests[id].pc).claimed then Running(old(requests[id].pc).since) else Done(InProgress)
    {
      var r := requests[id];
      if event.Fails? {
        answer := Some(Unavailable);
      } else {
        var row := Lookup(r.slot);
        answer := if row.None? then None else Some(Reply(row.value, r.hash));
      }
      if answer.Some? {
        At(id, Leave(r.pc, answer.value));
      } else if r.pc.FirstLookup? {
        At(id, Claiming);
      } else {
        At(id, if r.pc.claimed then Running(r.pc.since) else Done(InProgress));
      }
    }

    method ClaimKey(id: int, event: Event)
      requires id in requests && requests[id].pc.Claiming?
      modifies this
      ensures State() == Next(old(State()), Advance(id, event))
      ensures id in requests
      ensures requests[id].pc == if event.Works? then SecondLookup(old(Claimable(State().tables, requests[id].slot)), old(now))
                                 else Done(Unavailable)
    {
      var slot := requests[id].slot;
      if event.Fails? {
        if event.applied { var _ := Claim(slot); }
        At(id, Done(Unavailable));
      } else {
        var claimed := Claim(slot);
        At(id, SecondLookup(claimed, now));
      }
    }

    /** Runs the handler and classifies what it wrote: kept for replay, or not. */
    method RunHandler(id: int, event: Event)
      requires id in requests && requests[id].pc.Running?
      modifies this
      ensures State() == Next(old(State()), Advance(id, event))
      ensures id in requests && (requests[id].pc.Storing? || requests[id].pc.Releasing?)
      ensures requests[id].pc.answer == if event.Works? then Fresh(event.outcome) else RouterError
      ensures requests[id].pc.Storing? <==>
        && event.Works? && event.outcome.status == 200 && event.outcome.body != "" && event.outcome.envelope.Some?
        && (forall k :: 0 <= k < |event.outcome.envelope.value| ==>
             event.outcome.envelope.value[k].ok && !event.outcome.envelope.value[k].hasError)
        && requests[id].calls.Some? && (forall k :: 0 <= k < |requests[id].calls.value| ==> !requests[id].calls.value[k])
    {
      var r := requests[id];
      var committed, wrote := event.Fails? && event.applied, None;
      var pc := Releasing(r.pc.since, RouterError);
      if event.Works? {
        var o := event.outcome;
        committed := BatchSucceeded(o);
        wrote := Some(o);
        var secret := BatchHasSecret(r.calls);
        pc := if o.status == 200 && o.body != "" && committed && !secret then Storing(r.pc.since, o.body, Fresh(o))
              else Releasing(r.pc.since, Fresh(o));
      }
      if committed {
        commits := commits + [CommitOf(r, wrote)];
        if !pc.Storing? { losses := losses + multiset{r.slot}; }
      }
      At(id, pc);
    }

    method StoreAnswer(id: int, event: Event)
      requires id in requests && requests[id].pc.Storing?
      modifies this
      ensures State() == Next(old(State()), Advance(id, event))
      ensures id in requests
      ensures requests[id].pc == Releasing(old(requests[id].pc).since, old(requests[id].pc).answer)
    {
      var r := requests[id];
      if event == Fails(false) {
        losses := losses + multiset{r.slot};
      } else {
        Store(r.slot, r.hash, r.pc.body);
      }
      At(id, Releasing(r.pc.since, r.pc.answer));
    }

    method ReleaseClaim(id: int, event: Event)
      requires id in requests && requests[id].pc.Releasing?
      modifies this
      ensures State() == Next(old(State()), Advance(id, event))
      ensures id in requests && requests[id].pc == Done(old(requests[id].pc).answer)
    {
      var r := requests[id];
      if event != Fails(false) { Release(r.slot); }
      At(id, Done(r.pc.answer));
    }

    /** The first lookup, and on a miss the claim. */
    method LookupAndClaim(id: int, plan: Plan) returns (ghost trace: seq<Step>)
      requires id in requests && requests[id].pc == FirstLookup && ValidPlan(plan, id)
      modifies this
      ensures State() == Run(old(State()), trace) && Survives(trace, id)
      ensures id in requests && (requests[id].pc.SecondLookup? || (requests[id].pc.Done? && NotRun(requests[id].pc.answer)))
    {
      ghost var s := State();
      Others(plan.gaps[0], id);
      trace := Took(s, id, [], plan.gaps[0], State());
      var answer := Replay(id, plan.lookup);
      trace := TookStep(s, id, trace, Advance(id, plan.lookup), State());
      if answer.Some? { return trace; }
      Others(plan.gaps[1], id);
      trace := Took(s, id, trace, plan.gaps[1], State());
      ClaimKey(id, plan.claim);
      trace := TookStep(s, id, trace, Advance(id, plan.claim), State());
    }

    /** The lookup after the claim; an answered request drops a claim it took. */
    method LookupAgain(id: int, plan: Plan) returns (run: bool, ghost trace: seq<Step>)
      requires id in requests && requests[id].pc.SecondLookup? && ValidPlan(plan, id)
      modifies this
      ensures State() == Run(old(State()), trace) && Survives(trace, id)
      ensures id in requests && (if run then requests[id].pc.Running? else requests[id].pc.Done? && NotRun(requests[id].pc.answer))
    {
      ghost var s := State();
      var claimed := requests[id].pc.claimed;
      Others(plan.gaps[2], id);
      trace := Took(s, id, [], plan.gaps[2], State());
      var answer := Replay(id, plan.again);
      trace := TookStep(s, id, trace, Advance(id, plan.again), State());
      if answer.Some? && claimed {
        Others(plan.gaps[6], id);
        trace := Took(s, id, trace, plan.gaps[6], State());
        ReleaseClaim(id, plan.release);
        trace := TookStep(s, id, trace, Advance(id, plan.release), State());
      }
      run := answer.None? && claimed;
    }

    /** `begin`: true when the request may run. */
    method Begin(id: int, plan: Plan) returns (run: bool, ghost trace: seq<Step>)
      requires id in requests && requests[id].pc == FirstLookup && ValidPlan(plan, id)
      modifies this
      ensures State() == Run(old(State()), trace) && Survives(trace, id)
      ensures id in requests && (if run then requests[id].pc.Running? else requests[id].pc.Done? && NotRun(requests[id].pc.answer))
    {
      ghost var s := State();
      trace := LookupAndClaim(id, plan);
      run := false;
      if requests[id].pc.SecondLookup? {
        ghost var again;
        run, again := LookupAgain(id, plan);
        trace := Took(s, id, trace, again, State());
      }
    }

    /** The claimed request: run, store a kept answer, release. */
    method RunAndStore(id: int, plan: Plan) returns (ghost trace: seq<Step>)
      requires id in requests && requests[id].pc.Running? && ValidPlan(plan, id)
      modifies this
      ensures State() == Run(old(State()), trace) && Survives(trace, id)
      ensures id in requests
      ensures requests[id].pc == Done(if plan.handler.Works? then Fresh(plan.handler.outcome) else RouterError)
    {
      ghost var s := State();
      Others(plan.gaps[3], id);
      trace := Took(s, id, [], plan.gaps[3], State());
      RunHandler(id, plan.handler);
      trace := TookStep(s, id, trace, Advance(id, plan.handler), State());
      if requests[id].pc.Storing? {
        Others(plan.gaps[4], id);
        trace := Took(s, id, trace, plan.gaps[4], State());
        StoreAnswer(id, plan.store);
        trace := TookStep(s, id, trace, Advance(id, plan.store), State());
      }
      Others(plan.gaps[5], id);
      trace := Took(s, id, trace, plan.gaps[5], State());
      ReleaseClaim(id, plan.release);
      trace := TookStep(s, id, trace, Advance(id, plan.release), State());
    }

    /** A whole keyed request, whatever others do in between: it is a run of the
        Idempotency machine, so everything proved of runs holds of it.  A request
        that ran its handler answers what the handler wrote. */
    method WrapAuthed(id: int, slot: Slot, hash: string, calls: Option<seq<bool>>, plan: Plan)
      returns (answer: Answer, ran: bool, ghost trace: seq<Step>)
      requires id !in requests && ValidPlan(plan, id)
      modifies this
      ensures State() == Run(old(State()), trace) && Survives(trace, id)
      ensures id in requests && requests[id].pc == Done(answer)
      ensures ran ==> answer == if plan.handler.Works? then Fresh(plan.handler.outcome) else RouterError
      ensures !ran ==> NotRun(answer)
    {
      ghost var s := State();
      requests := requests[id := Request(slot, hash, calls, FirstLookup)];
      trace := TookStep(s, id, [], Arrive(id, slot, hash, calls), State());
      ghost var begun;
      ran, begun := Begin(id, plan);
      trace := Took(s, id, trace, begun, State());
      if ran {
        ghost var rest := RunAndStore(id, plan);
        trace := Took(s, id, trace, rest, State());
      }
      answer := requests[id].pc.answer;
    }
  }

  /** One more stretch of a run. */
  ghost method Took(s: State, id: int, trace: seq<Step>, more: seq<Step>, now: State) returns (all: seq<Step>)
    requires now == Run(Run(s, trace), more) && Survives(trace, id) && Survives(more, id)
    ensures now == Run(s, all) && Survives(all, id)
  {
    FoldAppend(Next, s, trace, more);
    all := trace + more;
  }

  ghost method TookStep(s: State, id: int, trace: seq<Step>, step: Step, now: State) returns (all: seq<Step>)
    requires now == Next(Run(s, trace), step) && Survives(trace, id) && Survives([step], id)
    ensures now == Run(s, all) && Survives(all, id)
  {
    FoldSnoc(Next, s, trace, step);
    all := trace + [step];
  }
}
