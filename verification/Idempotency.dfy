/**
 The Idempotency-Key protocol as a transition system: every SQL statement of a
 keyed request is one atomic step, any number of requests run at once, a
 statement may fail (before or after it took effect), a process may die, rows
 expire and the clock moves.  A run is any finite sequence of such steps.
 */
module Idempotency {
  import opened Prelude

  const CLAIM_STALE: int := 15 * 60 * 1000
  const RETENTION: int := 24 * 60 * 60 * 1000

  /** Partition of both tables: the resolved user and the header's key. */
  datatype Slot = Slot(user: int, key: string)

  datatype SubResponse = SubResponse(ok: bool, hasError: bool)

  /** What the wrapped handler wrote.  `envelope` is None when the body does
      not parse as a batch response. */
  datatype Outcome = Outcome(status: int, body: string, envelope: Option<seq<SubResponse>>)

  datatype Answer =
    | Replayed(body: string)
    | Mismatch
    | InProgress
    | Unavailable
    | Fresh(outcome: Outcome)
    | RouterError

  datatype Stored = Stored(hash: string, body: string, at: int)

  /** The two tables and the database clock. */
  datatype Tables = Tables(now: int, responses: map<Slot, Stored>, claims: map<Slot, int>)

  /** Where a request is; `since` is the claimed_at it wrote. */
  datatype Pc =
    | FirstLookup
    | Claiming
    | SecondLookup(claimed: bool, since: int)
    | Running(since: int)
    | Storing(since: int, body: string, answer: Answer)
    | Releasing(since: int, answer: Answer)
    | Done(answer: Answer)

  /** `calls` says of each call the body makes whether its handler's result is
      secret; None when the body does not parse. */
  datatype Request = Request(slot: Slot, hash: string, calls: Option<seq<bool>>, pc: Pc)

  /** A batch that ran and committed: what it called, and what it wrote (None
      when its answer never came, its body is "" then). */
  datatype Commit = Commit(slot: Slot, hash: string, body: string, calls: Option<seq<bool>>, wrote: Option<Outcome>)

  /** `commits` and `losses` are history: every committed batch, and every
      committed answer that is not (or no longer) kept for replay. */
  datatype State = State(
    tables: Tables,
    requests: map<int, Request>,
    commits: seq<Commit>,
    losses: multiset<Slot>)

  /** How one statement of a request goes: it works (with what the handler
      wrote, when it is the handler's turn), or reports an error after having
      taken effect or not. */
  datatype Event = Works(outcome: Outcome) | Fails(applied: bool)

  datatype Step =
    | Arrive(id: int, slot: Slot, hash: string, calls: Option<seq<bool>>)
    | Advance(id: int, event: Event)
    | Crash(id: int, committed: bool)
    | Tick(elapsed: nat)
    | ExpireResponses
    | ExpireClaims

  // ---------------------------------------------------------------- statements

  predicate Claimable(t: Tables, slot: Slot) {
    slot !in t.claims || t.claims[slot] < t.now - CLAIM_STALE
  }

  function AfterClaim(t: Tables, slot: Slot): Tables {
    if Claimable(t, slot) then t.(claims := t.claims[slot := t.now]) else t
  }

  function AfterRelease(t: Tables, slot: Slot): Tables {
    t.(claims := t.claims - {slot})
  }

  function AfterStore(t: Tables, slot: Slot, hash: string, body: string): Tables {
    if slot in t.responses then t else t.(responses := t.responses[slot := Stored(hash, body, t.now)])
  }

  function Expired(t: Tables): set<Slot> {
    set slot | slot in t.responses && t.responses[slot].at < t.now - RETENTION
  }

  function StaleClaims(t: Tables): set<Slot> {
    set slot | slot in t.claims && t.claims[slot] < t.now - RETENTION
  }

  /** What `replay` writes for a stored row. */
  function Reply(row: Stored, hash: string): Answer {
    if row.hash == hash then Replayed(row.body) else Mismatch
  }

  /** batchSucceeded: an unreadable envelope is not a success. */
  predicate Succeeded(o: Outcome) {
    o.envelope.Some? && forall k :: 0 <= k < |o.envelope.value| ==> o.envelope.value[k].ok && !o.envelope.value[k].hasError
  }

  /** batchHasSecret: an unreadable body counts as one. */
  predicate HasSecret(calls: Option<seq<bool>>) {
    calls.None? || exists k :: 0 <= k < |calls.value| && calls.value[k]
  }

  predicate Kept(o: Outcome, calls: Option<seq<bool>>) {
    o.status == 200 && o.body != "" && Succeeded(o) && !HasSecret(calls)
  }

  // --------------------------------------------------------------- transitions

  function Goto(s: State, id: int, pc: Pc): State
    requires id in s.requests
  {
    s.(requests := s.requests[id := s.requests[id].(pc := pc)])
  }

  /** Answered at a lookup: only a claimed request has a claim to drop. */
  function Leave(pc: Pc, a: Answer): Pc {
    if pc.SecondLookup? && pc.claimed then Releasing(pc.since, a) else Done(a)
  }

  function AdvanceLookup(s: State, id: int, event: Event): State
    requires id in s.requests && (s.requests[id].pc.FirstLookup? || s.requests[id].pc.SecondLookup?)
  {
    var r := s.requests[id];
    if event.Fails? then Goto(s, id, Leave(r.pc, Unavailable))
    else if r.slot in s.tables.responses then
      Goto(s, id, Leave(r.pc, Reply(s.tables.responses[r.slot], r.hash)))
    else if r.pc.FirstLookup? then Goto(s, id, Claiming)
    else if r.pc.claimed then Goto(s, id, Running(r.pc.since))
    else Goto(s, id, Done(InProgress))
  }

  function AdvanceClaim(s: State, id: int, event: Event): State
    requires id in s.requests
  {
    var r := s.requests[id];
    match event
    case Works(_) =>
      Goto(s, id, SecondLookup(Claimable(s.tables, r.slot), s.tables.now)).(tables := AfterClaim(s.tables, r.slot))
    case Fails(applied) =>
      Goto(s, id, Done(Unavailable)).(tables := if applied then AfterClaim(s.tables, r.slot) else s.tables)
  }

  /** A batch commits and its holder moves on: to be stored, or lost. */
  function Committed(s: State, id: int, wrote: Option<Outcome>, pc: Pc): State
    requires id in s.requests
  {
    var ran := Goto(s.(commits := s.commits + [CommitOf(s.requests[id], wrote)]), id, pc);
    if pc.Storing? then ran else Lose(ran, s.requests[id].slot)
  }

  function CommitOf(r: Request, wrote: Option<Outcome>): Commit {
    Commit(r.slot, r.hash, if wrote.Some? then wrote.value.body else "", r.calls, wrote)
  }

  /** The handler runs: a success commits; one that is not kept is a loss. */
  function AdvanceRun(s: State, id: int, event: Event): State
    requires id in s.requests && s.requests[id].pc.Running?
  {
    var r := s.requests[id];
    match event
    case Works(o) =>
      var pc := if Kept(o, r.calls) then Storing(r.pc.since, o.body, Fresh(o)) else Releasing(r.pc.since, Fresh(o));
      if Succeeded(o) then Committed(s, id, Some(o), pc) else Goto(s, id, pc)
    case Fails(committed) =>
      var pc := Releasing(r.pc.since, RouterError);
      if committed then Committed(s, id, None, pc) else Goto(s, id, pc)
  }

  function Lose(s: State, slot: Slot): State {
    s.(losses := s.losses + multiset{slot})
  }

  function AdvanceStore(s: State, id: int, event: Event): State
    requires id in s.requests && s.requests[id].pc.Storing?
  {
    var r := s.requests[id];
    var moved := Goto(s, id, Releasing(r.pc.since, r.pc.answer));
    if event == Fails(false) then Lose(moved, r.slot)
    else moved.(tables := AfterStore(s.tables, r.slot, r.hash, r.pc.body))
  }

  function AdvanceRelease(s: State, id: int, event: Event): State
    requires id in s.requests && s.requests[id].pc.Releasing?
  {
    var r := s.requests[id];
    var moved := Goto(s, id, Done(r.pc.answer));
    if event == Fails(false) then moved else moved.(tables := AfterRelease(s.tables, r.slot))
  }

  function AdvanceOne(s: State, id: int, event: Event): State
    requires id in s.requests
  {
    match s.requests[id].pc
    case FirstLookup => AdvanceLookup(s, id, event)
    case Claiming => AdvanceClaim(s, id, event)
    case SecondLookup(_, _) => AdvanceLookup(s, id, event)
    case Running(_) => AdvanceRun(s, id, event)
    case Storing(_, _, _) => AdvanceStore(s, id, event)
    case Releasing(_, _) => AdvanceRelease(s, id, event)
    case Done(_) => s
  }

  /** The process dies under a request: its claim stays.  A batch that was
      running may have committed; an answer not stored yet is lost. */
  function CrashOne(s: State, id: int, committed: bool): State
    requires id in s.requests
  {
    var r := s.requests[id];
    if r.pc.Done? then s
    else if r.pc.Running? && committed then Committed(s, id, None, Done(Unavailable))
    else if r.pc.Storing? then Lose(Goto(s, id, Done(Unavailable)), r.slot)
    else Goto(s, id, Done(Unavailable))
  }

  function Next(s: State, step: Step): State {
    match step
    case Arrive(id, slot, hash, calls) =>
      if id in s.requests then s else s.(requests := s.requests[id := Request(slot, hash, calls, FirstLookup)])
    case Advance(id, event) =>
      if id in s.requests then AdvanceOne(s, id, event) else s
    case Crash(id, committed) =>
      if id in s.requests then CrashOne(s, id, committed) else s
    case Tick(elapsed) =>
      s.(tables := s.tables.(now := s.tables.now + elapsed))
    case ExpireResponses =>
      s.(tables := s.tables.(responses := s.tables.responses - Expired(s.tables)),
         losses := s.losses + multiset(Expired(s.tables)))
    case ExpireClaims =>
      s.(tables := s.tables.(claims := s.tables.claims - StaleClaims(s.tables)))
  }

  function Run(s: State, steps: seq<Step>): State {
    Fold(Next, s, steps)
  }

  const INITIAL := State(Tables(0, map[], map[]), map[], [], multiset{})

  // ----------------------------------------------------------------- invariant

  /** The request owns its key's claim. */
  predicate Holding(pc: Pc) {
    (pc.SecondLookup? && pc.claimed) || pc.Running? || pc.Storing? || pc.Releasing?
  }

  function Since(pc: Pc): int
    requires Holding(pc)
  {
    match pc
    case SecondLookup(_, since) => since
    case Running(since) => since
    case Storing(since, _, _) => since
    case Releasing(since, _) => since
  }

  /** No request has held its claim for longer than `bound`. */
  ghost predicate HeldAtMost(s: State, bound: int) {
    forall id :: id in s.requests && Holding(s.requests[id].pc) ==> s.tables.now <= Since(s.requests[id].pc) + bound
  }

  ghost predicate RunHoldsAtMost(s: State, steps: seq<Step>, bound: int) {
    forall k :: 0 <= k <= |steps| ==> HeldAtMost(Run(s, steps[..k]), bound)
  }

  function Count(commits: seq<Commit>, slot: Slot): nat {
    if commits == [] then 0
    else Count(commits[..|commits| - 1], slot) + (if commits[|commits| - 1].slot == slot then 1 else 0)
  }

  /** A committed answer on its way to the table. */
  ghost predicate Pending(s: State, slot: Slot) {
    exists id :: id in s.requests && s.requests[id].slot == slot && s.requests[id].pc.Storing?
  }

  ghost predicate ClaimsOwned(s: State) {
    forall id :: id in s.requests && Holding(s.requests[id].pc) ==>
      s.requests[id].slot in s.tables.claims && s.tables.claims[s.requests[id].slot] == Since(s.requests[id].pc)
  }

  ghost predicate OneHolder(s: State) {
    forall a, b |
      a in s.requests && b in s.requests && Holding(s.requests[a].pc) && Holding(s.requests[b].pc) &&
      s.requests[a].slot == s.requests[b].slot :: a == b
  }

  /** What the second lookup buys: nothing runs under an answered key. */
  ghost predicate RunsOnlyUnanswered(s: State) {
    forall id :: id in s.requests && (s.requests[id].pc.Running? || s.requests[id].pc.Storing?) ==>
      s.requests[id].slot !in s.tables.responses
  }

  /** Every committed batch is accounted for: lost, stored, or on its way. */
  ghost predicate Balanced(s: State) {
    forall slot :: BalancedAt(s, slot)
  }

  ghost predicate BalancedAt(s: State, slot: Slot) {
    Count(s.commits, slot) ==
      s.losses[slot] + (if slot in s.tables.responses then 1 else 0) + (if Pending(s, slot) then 1 else 0)
  }

  /** Some committed batch of the key had this request and wrote this body. */
  ghost predicate Ran(commits: seq<Commit>, slot: Slot, hash: string, body: string) {
    exists k :: 0 <= k < |commits| && commits[k].slot == slot && commits[k].hash == hash && commits[k].body == body
  }

  lemma RanStill(commits: seq<Commit>, c: Commit)
    ensures forall slot, hash, body :: Ran(commits, slot, hash, body) ==> Ran(commits + [c], slot, hash, body)
    ensures Ran(commits + [c], c.slot, c.hash, c.body)
  {
    forall slot, hash, body | Ran(commits, slot, hash, body) ensures Ran(commits + [c], slot, hash, body) {
      var k :| 0 <= k < |commits| && commits[k].slot == slot && commits[k].hash == hash && commits[k].body == body;
      assert (commits + [c])[k] == commits[k];
    }
    assert (commits + [c])[|commits|] == c;
  }

  ghost predicate Backed(s: State) {
    && (forall slot :: slot in s.tables.responses ==>
         Ran(s.commits, slot, s.tables.responses[slot].hash, s.tables.responses[slot].body))
    && (forall id :: id in s.requests ==> PcBacked(s.requests[id], s.commits))
  }

  ghost predicate PcBacked(r: Request, commits: seq<Commit>) {
    && (r.pc.Storing? ==> Ran(commits, r.slot, r.hash, r.pc.body))
    && (r.pc.Storing? ==> !r.pc.answer.Replayed?)
    && (r.pc.Releasing? && r.pc.answer.Replayed? ==> Ran(commits, r.slot, r.hash, r.pc.answer.body))
    && (r.pc.Done? && r.pc.answer.Replayed? ==> Ran(commits, r.slot, r.hash, r.pc.answer.body))
  }

  ghost predicate Inv(s: State) {
    ClaimsOwned(s) && OneHolder(s) && RunsOnlyUnanswered(s) && Balanced(s) && Backed(s)
  }

  // --------------------------------------------------------------------- proof

  lemma CountPush(commits: seq<Commit>, c: Commit, slot: Slot)
    ensures Count(commits + [c], slot) == Count(commits, slot) + (if c.slot == slot then 1 else 0)
  {
    assert (commits + [c])[..|commits|] == commits;
  }

  ghost predicate Moved(s: State, id: int, pc: Pc, s': State) {
    id in s.requests && s'.requests == s.requests[id := s.requests[id].(pc := pc)]
  }

  /** Pending only changes at the slot of the request that moved. */
  lemma PendingAfter(s: State, id: int, pc: Pc, s': State, slot: Slot)
    requires OneHolder(s) && Moved(s, id, pc, s')
    requires Holding(s.requests[id].pc) || !pc.Storing?
    ensures slot != s.requests[id].slot || !Holding(s.requests[id].pc) ==> Pending(s', slot) == Pending(s, slot)
    ensures slot == s.requests[id].slot && Holding(s.requests[id].pc) ==>
      Pending(s, slot) == s.requests[id].pc.Storing? && Pending(s', slot) == pc.Storing?
  {
    assert s'.requests[id].pc == pc && s'.requests[id].slot == s.requests[id].slot;
    if Pending(s, slot) {
      var k :| k in s.requests && s.requests[k].slot == slot && s.requests[k].pc.Storing?;
      assert k != id ==> k in s'.requests && s'.requests[k] == s.requests[k];
    }
    if Pending(s', slot) {
      var k :| k in s'.requests && s'.requests[k].slot == slot && s'.requests[k].pc.Storing?;
      assert k != id ==> k in s.requests && s'.requests[k] == s.requests[k];
    }
  }

  /** A holder (or a request that stays outside) moves on, the tables as they were. */
  ghost predicate MoveAllowed(s: State, id: int, pc: Pc) {
    && id in s.requests
    && (Holding(pc) ==> Holding(s.requests[id].pc) && Since(pc) == Since(s.requests[id].pc))
    && (pc.Running? || pc.Storing? ==> s.requests[id].slot !in s.tables.responses)
  }

  lemma MoveKeepsOwnership(s: State, id: int, pc: Pc, s': State)
    requires ClaimsOwned(s) && OneHolder(s) && RunsOnlyUnanswered(s)
    requires MoveAllowed(s, id, pc) && Moved(s, id, pc, s') && s'.tables == s.tables
    ensures ClaimsOwned(s') && OneHolder(s') && RunsOnlyUnanswered(s')
  {
  }

  lemma MoveKeeps(s: State, id: int, pc: Pc)
    requires Inv(s) && MoveAllowed(s, id, pc) && !pc.Storing? && !s.requests[id].pc.Storing?
    requires PcBacked(s.requests[id].(pc := pc), s.commits)
    ensures Inv(Goto(s, id, pc))
  {
    var s' := Goto(s, id, pc);
    MoveKeepsOwnership(s, id, pc, s');
    forall slot ensures BalancedAt(s', slot) {
      PendingAfter(s, id, pc, s', slot);
      assert BalancedAt(s, slot);
    }
  }

  lemma LookupKeeps(s: State, id: int, event: Event)
    requires Inv(s) && id in s.requests
    requires s.requests[id].pc.FirstLookup? || s.requests[id].pc.SecondLookup?
    ensures Inv(AdvanceLookup(s, id, event))
  {
    MoveKeeps(s, id, AdvanceLookup(s, id, event).requests[id].pc);
  }

  lemma ClaimKeeps(s: State, id: int, event: Event)
    requires Inv(s) && HeldAtMost(s, CLAIM_STALE) && id in s.requests && s.requests[id].pc.Claiming?
    ensures Inv(AdvanceClaim(s, id, event))
  {
    var s' := AdvanceClaim(s, id, event);
    forall slot ensures BalancedAt(s', slot) {
      PendingAfter(s, id, s'.requests[id].pc, s', slot);
      assert BalancedAt(s, slot);
    }
  }

  lemma CommitIsBacked(s: State, id: int, wrote: Option<Outcome>, pc: Pc)
    requires Backed(s) && id in s.requests
    requires PcBacked(s.requests[id].(pc := pc), [CommitOf(s.requests[id], wrote)])
    ensures Backed(Committed(s, id, wrote, pc))
  {
    hide Ran;
    var c := CommitOf(s.requests[id], wrote);
    RanStill(s.commits, c);
    forall slot, hash, body | Ran([c], slot, hash, body) ensures Ran(s.commits + [c], slot, hash, body) {
      OnlyRan(c, slot, hash, body);
    }
  }

  lemma OnlyRan(c: Commit, slot: Slot, hash: string, body: string)
    requires Ran([c], slot, hash, body)
    ensures c.slot == slot && c.hash == hash && c.body == body
  {
  }

  lemma CommitKeeps(s: State, id: int, wrote: Option<Outcome>, pc: Pc)
    requires Inv(s) && MoveAllowed(s, id, pc) && s.requests[id].pc.Running?
    requires PcBacked(s.requests[id].(pc := pc), [CommitOf(s.requests[id], wrote)])
    ensures Inv(Committed(s, id, wrote, pc))
  {
    var s' := Committed(s, id, wrote, pc);
    CommitIsBacked(s, id, wrote, pc);
    MoveKeepsOwnership(s, id, pc, s');
    hide Backed;
    forall slot ensures BalancedAt(s', slot) {
      CountPush(s.commits, CommitOf(s.requests[id], wrote), slot);
      PendingAfter(s, id, pc, s', slot);
      assert BalancedAt(s, slot);
    }
  }

  lemma RunKeeps(s: State, id: int, event: Event)
    requires Inv(s) && id in s.requests && s.requests[id].pc.Running?
    ensures Inv(AdvanceRun(s, id, event))
  {
    var s' := AdvanceRun(s, id, event);
    var pc := s'.requests[id].pc;
    if event.Fails? && event.applied {
      CommitKeeps(s, id, None, pc);
    } else if event.Works? && Succeeded(event.outcome) {
      RanStill([], CommitOf(s.requests[id], Some(event.outcome)));
      CommitKeeps(s, id, Some(event.outcome), pc);
    } else {
      MoveKeeps(s, id, pc);
    }
  }

  lemma StoreKeeps(s: State, id: int, event: Event)
    requires Inv(s) && id in s.requests && s.requests[id].pc.Storing?
    ensures Inv(AdvanceStore(s, id, event))
  {
    var r := s.requests[id];
    var s' := AdvanceStore(s, id, event);
    forall slot ensures BalancedAt(s', slot) {
      PendingAfter(s, id, Releasing(r.pc.since, r.pc.answer), s', slot);
      assert BalancedAt(s, slot);
    }
  }

  lemma ReleaseKeeps(s: State, id: int, event: Event)
    requires Inv(s) && id in s.requests && s.requests[id].pc.Releasing?
    ensures Inv(AdvanceRelease(s, id, event))
  {
    var s' := AdvanceRelease(s, id, event);
    forall slot ensures BalancedAt(s', slot) {
      PendingAfter(s, id, Done(s.requests[id].pc.answer), s', slot);
      assert BalancedAt(s, slot);
    }
  }

  lemma CrashKeeps(s: State, id: int, committed: bool)
    requires Inv(s) && id in s.requests
    ensures Inv(CrashOne(s, id, committed))
  {
    var pc := s.requests[id].pc;
    var s' := CrashOne(s, id, committed);
    if pc.Running? && committed {
      CommitKeeps(s, id, None, Done(Unavailable));
    } else if pc.Storing? {
      MoveKeepsOwnership(s, id, Done(Unavailable), s');
      forall slot ensures BalancedAt(s', slot) {
        PendingAfter(s, id, Done(Unavailable), s', slot);
        assert BalancedAt(s, slot);
      }
    } else if !pc.Done? {
      MoveKeeps(s, id, Done(Unavailable));
    }
  }

  lemma ExpiryKeeps(s: State, step: Step)
    requires Inv(s) && HeldAtMost(s, CLAIM_STALE) && (step.ExpireClaims? || step.ExpireResponses? || step.Tick? || step.Arrive?)
    ensures Inv(Next(s, step))
  {
    var s' := Next(s, step);
    forall slot ensures BalancedAt(s', slot) {
      assert BalancedAt(s, slot);
      if Pending(s, slot) {
        var k :| k in s.requests && s.requests[k].slot == slot && s.requests[k].pc.Storing?;
        assert k in s'.requests && s'.requests[k] == s.requests[k];
      }
    }
  }

  /** Every step keeps the invariant as long as no claim is held past claimStale. */
  lemma StepKeeps(s: State, step: Step)
    requires Inv(s) && HeldAtMost(s, CLAIM_STALE)
    ensures Inv(Next(s, step))
  {
    match step
    case Advance(id, event) =>
      if id in s.requests {
        match s.requests[id].pc
        case FirstLookup => LookupKeeps(s, id, event);
        case Claiming => ClaimKeeps(s, id, event);
        case SecondLookup(_, _) => LookupKeeps(s, id, event);
        case Running(_) => RunKeeps(s, id, event);
        case Storing(_, _, _) => StoreKeeps(s, id, event);
        case Releasing(_, _) => ReleaseKeeps(s, id, event);
        case Done(_) =>
      }
    case Crash(id, committed) =>
      if id in s.requests { CrashKeeps(s, id, committed); }
    case Arrive(_, _, _, _) => ExpiryKeeps(s, step);
    case Tick(_) => ExpiryKeeps(s, step);
    case ExpireResponses => ExpiryKeeps(s, step);
    case ExpireClaims => ExpiryKeeps(s, step);
  }

  // ------------------------------------------------------------------ theorems

  lemma {:induction false} RunKeepsInv(s: State, steps: seq<Step>)
    requires Inv(s) && RunHoldsAtMost(s, steps, CLAIM_STALE)
    ensures Inv(Run(s, steps))
  {
    if steps != [] {
      var init := steps[..|steps| - 1];
      forall k | 0 <= k <= |init| ensures HeldAtMost(Run(s, init[..k]), CLAIM_STALE) {
        assert init[..k] == steps[..k];
      }
      RunKeepsInv(s, init);
      assert HeldAtMost(Run(s, steps[..|init|]), CLAIM_STALE);
      StepKeeps(Run(s, init), steps[|steps| - 1]);
    }
  }

  lemma InitialInv()
    ensures Inv(INITIAL)
  {
    forall slot ensures BalancedAt(INITIAL, slot) {
    }
  }

  /** Over every run in which no claim is held past claimStale, a key's
      committed batches are its lost answers plus at most one that is kept. */
  lemma AtMostOneKept(steps: seq<Step>, slot: Slot)
    requires RunHoldsAtMost(INITIAL, steps, CLAIM_STALE)
    ensures var s := Run(INITIAL, steps);
      s.losses[slot] <= Count(s.commits, slot) <= s.losses[slot] + 1
    ensures var s := Run(INITIAL, steps);
      Count(s.commits, slot) == s.losses[slot] + 1 <==> slot in s.tables.responses || Pending(s, slot)
  {
    InitialInv();
    RunKeepsInv(INITIAL, steps);
    var s := Run(INITIAL, steps);
    assert BalancedAt(s, slot);
    if Pending(s, slot) {
      var id :| id in s.requests && s.requests[id].slot == slot && s.requests[id].pc.Storing?;
      assert slot !in s.tables.responses;
    }
  }

  lemma {:induction false} CountTwo(commits: seq<Commit>, i: int, j: int)
    requires 0 <= i < j < |commits| && commits[i].slot == commits[j].slot
    ensures Count(commits, commits[i].slot) >= 2
  {
    var init := commits[..|commits| - 1];
    if j < |commits| - 1 {
      CountTwo(init, i, j);
    } else {
      CountOne(init, i);
    }
  }

  lemma {:induction false} CountOne(commits: seq<Commit>, i: int)
    requires 0 <= i < |commits|
    ensures Count(commits, commits[i].slot) >= 1
  {
    if i < |commits| - 1 { CountOne(commits[..|commits| - 1], i); }
  }

  /** Under a key that lost no answer, every replay anyone ever got carries the
      one committed batch's body, and was asked for with that batch's request. */
  lemma ReplaysAgree(steps: seq<Step>, a: int, b: int)
    requires RunHoldsAtMost(INITIAL, steps, CLAIM_STALE)
    requires var s := Run(INITIAL, steps);
      && a in s.requests && b in s.requests && s.requests[a].slot == s.requests[b].slot
      && s.losses[s.requests[a].slot] == 0
      && s.requests[a].pc.Done? && s.requests[a].pc.answer.Replayed?
      && s.requests[b].pc.Done? && s.requests[b].pc.answer.Replayed?
    ensures var s := Run(INITIAL, steps);
      && s.requests[a].pc.answer == s.requests[b].pc.answer && s.requests[a].hash == s.requests[b].hash
      && Ran(s.commits, s.requests[a].slot, s.requests[a].hash, s.requests[a].pc.answer.body)
  {
    InitialInv();
    RunKeepsInv(INITIAL, steps);
    var s := Run(INITIAL, steps);
    AtMostOneKept(steps, s.requests[a].slot);
    assert PcBacked(s.requests[a], s.commits) && PcBacked(s.requests[b], s.commits);
    hide Inv, Ran;
    SameRun(s.commits, s.requests[a].slot, s.requests[a].hash, s.requests[a].pc.answer.body,
            s.requests[b].hash, s.requests[b].pc.answer.body);
  }

  lemma SameRun(commits: seq<Commit>, slot: Slot, h: string, b: string, h': string, b': string)
    requires Ran(commits, slot, h, b) && Ran(commits, slot, h', b') && Count(commits, slot) <= 1
    ensures h == h' && b == b'
  {
    var j :| 0 <= j < |commits| && commits[j].slot == slot && commits[j].hash == h && commits[j].body == b;
    var k :| 0 <= k < |commits| && commits[k].slot == slot && commits[k].hash == h' && commits[k].body == b';
    if j < k { CountTwo(commits, j, k); }
    if k < j { CountTwo(commits, k, j); }
  }

  predicate Undecided(pc: Pc) {
    pc.FirstLookup? || pc.Claiming? || pc.SecondLookup?
  }

  /** Not decided yet, or decided the way the stored row says. */
  predicate Settled(r: Request, row: Stored) {
    || Undecided(r.pc)
    || ((r.pc.Releasing? || r.pc.Done?) && r.pc.answer in {Reply(row, r.hash), Unavailable})
  }

  /** While an answer is stored, every request under its key that had not been
      decided before gets it (or the mismatch refusal, or a failed statement). */
  lemma {:induction false} LaterAnswers(s: State, steps: seq<Step>, slot: Slot, row: Stored, id: int)
    requires forall k | 0 <= k <= |steps| ::
      slot in Run(s, steps[..k]).tables.responses && Run(s, steps[..k]).tables.responses[slot] == row
    requires id in s.requests ==> Undecided(s.requests[id].pc)
    ensures var s' := Run(s, steps);
      id in s'.requests && s'.requests[id].slot == slot ==> Settled(s'.requests[id], row)
  {
    if steps != [] {
      var init := steps[..|steps| - 1];
      forall k | 0 <= k <= |init|
        ensures slot in Run(s, init[..k]).tables.responses && Run(s, init[..k]).tables.responses[slot] == row
      {
        assert init[..k] == steps[..k];
      }
      LaterAnswers(s, init, slot, row, id);
      assert Run(s, steps[..|init|]).tables.responses[slot] == row;
      SettledStep(Run(s, init), steps[|steps| - 1], slot, row, id);
    }
  }

  /** A step of something else leaves the request as it was. */
  lemma OthersUntouched(s: State, step: Step, id: int)
    requires id in s.requests
    requires !(step.Advance? && step.id == id) && !(step.Crash? && step.id == id)
    ensures id in Next(s, step).requests && Next(s, step).requests[id] == s.requests[id]
  {
    if step.Advance? && step.id in s.requests {
      match s.requests[step.id].pc
      case Running(_) =>
      case _ =>
    }
  }

  lemma SettledStep(s: State, step: Step, slot: Slot, row: Stored, id: int)
    requires slot in s.tables.responses && s.tables.responses[slot] == row
    requires id in s.requests && s.requests[id].slot == slot ==> Settled(s.requests[id], row)
    ensures var s' := Next(s, step);
      id in s'.requests && s'.requests[id].slot == slot ==> Settled(s'.requests[id], row)
  {
    if id !in s.requests {
      ArrivesUndecided(s, step, id);
    } else if (step.Advance? || step.Crash?) && step.id == id {
      match s.requests[id].pc
      case FirstLookup =>
      case Claiming =>
      case SecondLookup(_, _) =>
      case Running(_) => OwnSlot(s, step, id);
      case Storing(_, _, _) => OwnSlot(s, step, id);
      case Releasing(_, _) =>
      case Done(_) =>
    } else {
      OthersUntouched(s, step, id);
    }
  }

  lemma OwnSlot(s: State, step: Step, id: int)
    requires id in s.requests && (step.Advance? || step.Crash?) && step.id == id
    ensures id in Next(s, step).requests && Next(s, step).requests[id].slot == s.requests[id].slot
  {
  }

  lemma ArrivesUndecided(s: State, step: Step, id: int)
    requires id !in s.requests
    ensures id in Next(s, step).requests ==> Next(s, step).requests[id].pc == FirstLookup
  {
  }

  // ---------------------------------------------------------- the stale window

  ghost predicate AtMostOne(s: State, slot: Slot) {
    Count(s.commits, slot) <= s.losses[slot] + 1
  }

  /** No run that holds claims at most `bound` long answers a key twice. */
  ghost predicate SafeUnder(bound: int) {
    forall steps, slot :: RunHoldsAtMost(INITIAL, steps, bound) ==> AtMostOne(Run(INITIAL, steps), slot)
  }

  lemma HoldsSnoc(steps: seq<Step>, step: Step, bound: int)
    requires RunHoldsAtMost(INITIAL, steps, bound) && HeldAtMost(Next(Run(INITIAL, steps), step), bound)
    ensures RunHoldsAtMost(INITIAL, steps + [step], bound)
    ensures Run(INITIAL, steps + [step]) == Next(Run(INITIAL, steps), step)
  {
    FoldSnoc(Next, INITIAL, steps, step);
    var all := steps + [step];
    forall k | 0 <= k <= |all| ensures HeldAtMost(Run(INITIAL, all[..k]), bound) {
      if k <= |steps| { assert all[..k] == steps[..k]; } else { assert all[..k] == all; }
    }
  }

  const ONE_KEY := Slot(1, "k")
  const CLEAN := Works(Outcome(200, "{}", Some([])))

  /** The state when request 1 has run since 0 and the clock is at `late`. */
  function Overdue(late: nat): State {
    State(Tables(late, map[], map[ONE_KEY := 0]), map[1 := Request(ONE_KEY, "h", Some([]), Running(0))], [], multiset{})
  }

  /** The same with request 2 at `pc` and the key claimed at `since`. */
  function Second(late: nat, since: int, pc: Pc): State {
    State(Tables(late, map[], map[ONE_KEY := since]),
          map[1 := Request(ONE_KEY, "h", Some([]), Running(0)), 2 := Request(ONE_KEY, "h", Some([]), pc)], [], multiset{})
  }

  /** Request 1 at `pc`, the clock at 0. */
  function Early(claims: map<Slot, int>, pc: Pc): State {
    State(Tables(0, map[], claims), map[1 := Request(ONE_KEY, "h", Some([]), pc)], [], multiset{})
  }

  lemma NoSteps(bound: int)
    ensures RunHoldsAtMost(INITIAL, [], bound) && Run(INITIAL, []) == INITIAL
  {
  }

  lemma ReachOverdue(late: nat) returns (steps: seq<Step>)
    ensures RunHoldsAtMost(INITIAL, steps, late) && Run(INITIAL, steps) == Overdue(late)
  {
    hide RunHoldsAtMost, Run;
    NoSteps(late);
    var s1, s2 := Early(map[], FirstLookup), Early(map[], Claiming);
    var s3, s4 := Early(map[ONE_KEY := 0], SecondLookup(true, 0)), Early(map[ONE_KEY := 0], Running(0));
    steps := Take([], INITIAL, Arrive(1, ONE_KEY, "h", Some([])), s1, late);
    steps := Take(steps, s1, Advance(1, CLEAN), s2, late);
    steps := Take(steps, s2, Advance(1, CLEAN), s3, late);
    steps := Take(steps, s3, Advance(1, CLEAN), s4, late);
    steps := Take(steps, s4, Tick(late), Overdue(late), late);
  }

  /** One more step of a run, from a state we know to one we know. */
  lemma Take(steps: seq<Step>, s: State, step: Step, s': State, bound: int) returns (more: seq<Step>)
    requires RunHoldsAtMost(INITIAL, steps, bound) && Run(INITIAL, steps) == s
    requires Next(s, step) == s' && HeldAtMost(s', bound)
    ensures RunHoldsAtMost(INITIAL, more, bound) && Run(INITIAL, more) == s'
  {
    hide Next;
    HoldsSnoc(steps, step, bound);
    more := steps + [step];
  }

  lemma ReachTakenOver(late: nat) returns (steps: seq<Step>)
    requires late > CLAIM_STALE
    ensures RunHoldsAtMost(INITIAL, steps, late) && Run(INITIAL, steps) == Second(late, late, Running(late))
  {
    hide RunHoldsAtMost, Run;
    steps := ReachOverdue(late);
    var s1, s2 := Second(late, 0, FirstLookup), Second(late, 0, Claiming);
    var s3, s4 := Second(late, late, SecondLookup(true, late)), Second(late, late, Running(late));
    steps := Take(steps, Overdue(late), Arrive(2, ONE_KEY, "h", Some([])), s1, late);
    steps := Take(steps, s1, Advance(2, CLEAN), s2, late);
    steps := Take(steps, s2, Advance(2, CLEAN), s3, late);
    steps := Take(steps, s3, Advance(2, CLEAN), s4, late);
  }

  /** A claim held for longer than claimStale lets a second request run: two
      batches commit under one key and no answer was lost. */
  lemma TakeoverRunsTwice(late: nat) returns (steps: seq<Step>)
    requires late > CLAIM_STALE
    ensures RunHoldsAtMost(INITIAL, steps, late)
    ensures !AtMostOne(Run(INITIAL, steps), ONE_KEY)
  {
    hide RunHoldsAtMost, Run;
    steps := ReachTakenOver(late);
    var s, c := Second(late, late, Running(late)), Commit(ONE_KEY, "h", "{}", Some([]), Some(CLEAN.outcome));
    var s1 := Second(late, late, Storing(late, "{}", Fresh(CLEAN.outcome))).(commits := [] + [c]);
    var s2 := s1.(requests := s1.requests[1 := Request(ONE_KEY, "h", Some([]), Storing(0, "{}", Fresh(CLEAN.outcome)))],
                  commits := [] + [c] + [c]);
    steps := Take(steps, s, Advance(2, CLEAN), s1, late);
    steps := Take(steps, s1, Advance(1, CLEAN), s2, late);
    CountPush([], c, ONE_KEY);
    CountPush([] + [c], c, ONE_KEY);
  }

  /** claimStale is exactly how long a claim may be held. */
  lemma BoundIsTight(bound: nat)
    ensures SafeUnder(bound) <==> bound <= 15 * 60 * 1000
  {
    if bound <= CLAIM_STALE {
      forall steps, slot | RunHoldsAtMost(INITIAL, steps, bound)
        ensures AtMostOne(Run(INITIAL, steps), slot)
      {
        AtMostOneKept(steps, slot);
      }
    } else {
      var steps := TakeoverRunsTwice(bound);
    }
  }
}
