/**
 What each statement of a keyed request does when it works, when it fails, and
 what one request comes to that nobody interferes with.
 */
module IdempotencyAlone {
  import opened Prelude
  import opened Idempotency
  import opened IdempotencyAnswers

  const FIFTEEN_MINUTES: int := 900_000

  function Do(s: State, id: int, o: Outcome): State {
    Next(s, Advance(id, Works(o)))
  }

  function Arrived(s: State, id: int, slot: Slot, hash: string, calls: Option<seq<bool>>): State {
    Next(s, Arrive(id, slot, hash, calls))
  }

  /** The request is at pc; its key's claim and answer are as said. */
  ghost predicate At(s: State, s': State, id: int, r: Request, claims: map<Slot, int>, responses: map<Slot, Stored>) {
    && s'.requests == s.requests[id := r]
    && s'.tables == Tables(s.tables.now, responses, claims)
  }

  lemma ToClaiming(s: State, id: int, slot: Slot, hash: string, calls: Option<seq<bool>>, o: Outcome)
    requires id !in s.requests && slot !in s.tables.responses
    ensures var s' := Do(Arrived(s, id, slot, hash, calls), id, o);
      At(s, s', id, Request(slot, hash, calls, Claiming), s.tables.claims, s.tables.responses) && s'.commits == s.commits
  {
  }

  lemma ToSecond(s: State, id: int, o: Outcome)
    requires id in s.requests && s.requests[id].pc == Claiming
    ensures var r, s', now := s.requests[id], Do(s, id, o), s.tables.now;
      var free := r.slot !in s.tables.claims || s.tables.claims[r.slot] < now - FIFTEEN_MINUTES;
      && At(s, s', id, r.(pc := SecondLookup(free, now)), if free then s.tables.claims[r.slot := now] else s.tables.claims, s.tables.responses)
      && s'.commits == s.commits
  {
  }

  lemma ToRunning(s: State, id: int, o: Outcome)
    requires id in s.requests && s.requests[id].pc.SecondLookup? && s.requests[id].slot !in s.tables.responses
    ensures var r, s' := s.requests[id], Do(s, id, o);
      && At(s, s', id, r.(pc := if r.pc.claimed then Running(r.pc.since) else Done(InProgress)), s.tables.claims, s.tables.responses)
      && s'.commits == s.commits
  {
  }

  lemma ToStored(s: State, id: int, o: Outcome)
    requires id in s.requests && s.requests[id].pc.Storing? && s.requests[id].slot !in s.tables.responses
    ensures var r, s' := s.requests[id], Do(s, id, o);
      && At(s, s', id, r.(pc := Releasing(r.pc.since, r.pc.answer)), s.tables.claims,
            s.tables.responses[r.slot := Stored(r.hash, r.pc.body, s.tables.now)])
      && s'.commits == s.commits
  {
  }

  lemma ToDone(s: State, id: int, o: Outcome)
    requires id in s.requests && s.requests[id].pc.Releasing?
    ensures var r, s' := s.requests[id], Do(s, id, o);
      At(s, s', id, r.(pc := Done(r.pc.answer)), s.tables.claims - {r.slot}, s.tables.responses) && s'.commits == s.commits
  {
  }

  /** A new key: its request runs, a clean answer is stored, the claim is gone
      again, and the requester gets what the handler wrote. */
  lemma NewKeyAlone(s: State, id: int, slot: Slot, hash: string, calls: Option<seq<bool>>, o: Outcome)
    requires id !in s.requests && slot !in s.tables.responses
    requires slot !in s.tables.claims || s.tables.claims[slot] < s.tables.now - FIFTEEN_MINUTES
    ensures var ran := Do(Do(Do(Do(Arrived(s, id, slot, hash, calls), id, o), id, o), id, o), id, o);
      var ok := o.envelope.Some? && forall k :: 0 <= k < |o.envelope.value| ==> o.envelope.value[k].ok && !o.envelope.value[k].hasError;
      var clean := o.status == 200 && o.body != "" && ok && calls.Some? && forall k :: 0 <= k < |calls.value| ==> !calls.value[k];
      var end := if clean then Do(Do(ran, id, o), id, o) else Do(ran, id, o);
      && end.requests == s.requests[id := Request(slot, hash, calls, Done(Fresh(o)))]
      && end.tables.claims == s.tables.claims - {slot} && end.tables.now == s.tables.now
      && end.tables.responses == (if clean then s.tables.responses[slot := Stored(hash, o.body, s.tables.now)] else s.tables.responses)
      && end.commits == (if ok then s.commits + [Commit(slot, hash, o.body, calls, Some(o))] else s.commits)
  {
    hide Next;
    var s1 := Do(Arrived(s, id, slot, hash, calls), id, o);
    ToClaiming(s, id, slot, hash, calls, o);
    ToSecond(s1, id, o);
    var s2 := Do(s1, id, o);
    ToRunning(s2, id, o);
    var s3 := Do(s2, id, o);
    HandlerStep(s3, id, o);
    var s4 := Do(s3, id, o);
    if s4.requests[id].pc.Storing? {
      ToStored(s4, id, o);
      ToDone(Do(s4, id, o), id, o);
    } else {
      ToDone(s4, id, o);
    }
  }

  /** A key that is answered: its answer, or the refusal of another body, and
      nothing else changes. */
  lemma AnsweredKeyAlone(s: State, id: int, slot: Slot, hash: string, calls: Option<seq<bool>>, o: Outcome)
    requires id !in s.requests && slot in s.tables.responses
    ensures var row := s.tables.responses[slot];
      Do(Arrived(s, id, slot, hash, calls), id, o) ==
        s.(requests := s.requests[id := Request(slot, hash, calls, Done(if row.hash == hash then Replayed(row.body) else Mismatch))])
  {
  }

  /** A key someone is busy with: come back later, and nothing else changes. */
  lemma BusyKeyAlone(s: State, id: int, slot: Slot, hash: string, calls: Option<seq<bool>>, o: Outcome)
    requires id !in s.requests && slot !in s.tables.responses
    requires slot in s.tables.claims && s.tables.claims[slot] >= s.tables.now - FIFTEEN_MINUTES
    ensures var end := Do(Do(Do(Arrived(s, id, slot, hash, calls), id, o), id, o), id, o);
      end.requests == s.requests[id := Request(slot, hash, calls, Done(InProgress))] && end.tables == s.tables && end.commits == s.commits
  {
    hide Next;
    var s1 := Do(Arrived(s, id, slot, hash, calls), id, o);
    ToClaiming(s, id, slot, hash, calls, o);
    ToSecond(s1, id, o);
    ToRunning(Do(s1, id, o), id, o);
  }

  // -------------------------------------------------------------- when it fails

  /** Nothing runs that could not be looked up and claimed: the request is told to
      come back, a claim that took effect stays to be found stale, and a claim
      this request holds is dropped. */
  lemma FailsClosed(s: State, id: int, applied: bool)
    requires id in s.requests
    requires s.requests[id].pc.FirstLookup? || s.requests[id].pc.Claiming? || s.requests[id].pc.SecondLookup?
    ensures var s', r := Next(s, Advance(id, Fails(applied))), s.requests[id];
      && s'.commits == s.commits && s'.losses == s.losses && s'.tables.responses == s.tables.responses && s'.tables.now == s.tables.now
      && s'.requests == s.requests[id := r.(pc :=
           if r.pc.SecondLookup? && r.pc.claimed then Releasing(r.pc.since, Unavailable) else Done(Unavailable))]
      && s'.tables.claims ==
           if r.pc.Claiming? && applied && (r.slot !in s.tables.claims || s.tables.claims[r.slot] < s.tables.now - FIFTEEN_MINUTES)
           then s.tables.claims[r.slot := s.tables.now] else s.tables.claims
  {
  }

  /** A handler that fails answers the router's error, and is not stored; whether
      it committed or not, the claim is dropped next. */
  lemma HandlerFails(s: State, id: int, committed: bool)
    requires id in s.requests && s.requests[id].pc.Running?
    ensures var s', r := Next(s, Advance(id, Fails(committed))), s.requests[id];
      && s'.tables == s.tables && s'.requests == s.requests[id := r.(pc := Releasing(r.pc.since, RouterError))]
      && s'.commits == (if committed then s.commits + [Commit(r.slot, r.hash, "", r.calls, None)] else s.commits)
  {
  }

  /** Storing is best effort: the answer is there unless the statement did nothing
      or one was there already; the requester's answer is the same either way. */
  lemma StoreMayFail(s: State, id: int, e: Event)
    requires id in s.requests && s.requests[id].pc.Storing?
    ensures var s', r := Next(s, Advance(id, e)), s.requests[id];
      && s'.requests == s.requests[id := r.(pc := Releasing(r.pc.since, r.pc.answer))]
      && s'.tables == s.tables.(responses :=
           if e == Fails(false) || r.slot in s.tables.responses then s.tables.responses
           else s.tables.responses[r.slot := Stored(r.hash, r.pc.body, s.tables.now)])
  {
  }

  lemma ReleaseMayFail(s: State, id: int, e: Event)
    requires id in s.requests && s.requests[id].pc.Releasing?
    ensures var s', r := Next(s, Advance(id, e)), s.requests[id];
      && s'.requests == s.requests[id := r.(pc := Done(r.pc.answer))] && s'.commits == s.commits && s'.losses == s.losses
      && s'.tables == s.tables.(claims := if e == Fails(false) then s.tables.claims else s.tables.claims - {r.slot})
  {
  }

  /** A process that dies leaves the tables as they are, its claim included; only a
      batch that was running can have committed. */
  lemma CrashLeaves(s: State, id: int, committed: bool)
    requires id in s.requests && !s.requests[id].pc.Done?
    ensures var s', r := Next(s, Crash(id, committed)), s.requests[id];
      && s'.tables == s.tables && s'.requests == s.requests[id := r.(pc := Done(Unavailable))]
      && s'.commits == (if r.pc.Running? && committed then s.commits + [Commit(r.slot, r.hash, "", r.calls, None)] else s.commits)
  {
  }
}
