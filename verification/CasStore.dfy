/**
 Storage.Put and the reaper's reapOne over one database, statement by statement,
 with everything else that happens between the statements given as a schedule.
 Each is a run of the CasProtocol machine.
 */
module CasStore {
  import opened Prelude
  import opened CasProtocol

  predicate ActsForPut(step: Step, id: int) {
    (step.Begin? || step.Advance?) && step.id == id
  }

  predicate ActsForReap(step: Step, reap: int) {
    (step.Look? || step.Lock? || step.Finish?) && step.reap == reap
  }

  /** How one Put goes: what happens around and inside each statement. */
  datatype PutPlan = PutPlan(gaps: seq<seq<Step>>, has: Outcome, touch: Outcome, insert: Outcome)

  predicate ValidPlan(p: PutPlan, id: int) {
    |p.gaps| == 5 && forall k, j :: 0 <= k < 5 && 0 <= j < |p.gaps[k]| ==> !ActsForPut(p.gaps[k][j], id)
  }

  /** The reapers, and this other Put, are as they were. */
  ghost predicate Leaves(s: State, s': State, other: int) {
    && s'.orphans == s.orphans && s'.locks == s.locks
    && (other in s.puts ==> other in s'.puts && s'.puts[other] == s.puts[other])
  }

  lemma GotoFrame(s: State, id: int, pc: Pc, other: int)
    requires id in s.puts && id != other
    ensures Leaves(s, Goto(s, id, pc), other)
  {
  }

  lemma AdvanceFrame(c: Config, s: State, id: int, outcome: Outcome, other: int)
    requires id in s.puts && id != other
    ensures Leaves(s, AdvancePut(c, s, id, outcome), other)
  {
    match s.puts[id].pc
    case TouchSent(_) => TouchFrame(c, s, id, outcome, other);
    case InsertSent(_) => InsertFrame(c, s, id, outcome, other);
    case Returned =>
    case Failed =>
    case _ =>
      GotoFrame(s, id, AdvancePut(c, s, id, outcome).puts[id].pc, other);
  }

  lemma TouchFrame(c: Config, s: State, id: int, outcome: Outcome, other: int)
    requires id in s.puts && s.puts[id].pc.TouchSent? && id != other
    ensures Leaves(s, AdvanceTouch(c, s, id, outcome), other)
  {
  }

  lemma InsertFrame(c: Config, s: State, id: int, outcome: Outcome, other: int)
    requires id in s.puts && s.puts[id].pc.InsertSent? && id != other
    ensures Leaves(s, AdvanceInsert(c, s, id, outcome), other)
  {
  }

  predicate OfRef(step: Step) {
    step.RefBegin? || step.RefEnd? || step.RefSoft? || step.RefDrop? || step.RefFlip?
  }

  lemma RefFrame(c: Config, s: State, step: Step)
    requires OfRef(step)
    ensures var s' := NextRef(c, s, step); s'.orphans == s.orphans && s'.locks == s.locks && s'.puts == s.puts
  {
  }

  lemma ReapFrame(s: State, step: Step)
    requires step.Look? || step.Lock? || step.Finish?
    ensures NextReap(s, step).puts == s.puts
  {
    hide InUse, Pinned;
  }

  /** A step of something else leaves the Put as it was. */
  lemma OtherPut(c: Config, s: State, step: Step, id: int)
    requires id in s.puts && !ActsForPut(step, id)
    ensures id in Next(c, s, step).puts && Next(c, s, step).puts[id] == s.puts[id]
  {
    hide NextReap, NextRef, AdvancePut;
    match step
    case Begin(_, _) =>
    case Tick(_) =>
    case Advance(i, outcome) =>
      if i in s.puts { AdvanceFrame(c, s, i, outcome, id); }
    case Look(_, _, _) => ReapFrame(s, step);
    case Lock(_) => ReapFrame(s, step);
    case Finish(_, _) => ReapFrame(s, step);
    case _ => RefFrame(c, s, step);
  }

  lemma {:induction false} OthersPut(c: Config, s: State, steps: seq<Step>, id: int)
    requires id in s.puts && forall j :: 0 <= j < |steps| ==> !ActsForPut(steps[j], id)
    ensures id in Run(c, s, steps).puts && Run(c, s, steps).puts[id] == s.puts[id]
  {
    if steps != [] {
      OthersPut(c, s, steps[..|steps| - 1], id);
      hide Next;
      OtherPut(c, Run(c, s, steps[..|steps| - 1]), steps[|steps| - 1], id);
    }
  }

  /** The reaper's transaction: what it saw, and whether it holds the row. */
  predicate Holds(s: State, reap: int, a: string) {
    a in s.locks && s.locks[a] == reap
  }

  ghost predicate SameReap(s: State, s': State, reap: int, a: string)
    requires reap in s.orphans
  {
    reap in s'.orphans && s'.orphans[reap] == s.orphans[reap] && Holds(s', reap, a) == Holds(s, reap, a)
  }

  lemma OtherReaper(s: State, step: Step, reap: int, a: string)
    requires reap in s.orphans && !ActsForReap(step, reap) && (step.Look? || step.Lock? || step.Finish?)
    ensures SameReap(s, NextReap(s, step), reap, a)
  {
    hide InUse, Pinned, Reaped;
    if step.Finish? && step.reap in s.orphans { ReapedFrame(Unlock(s, step.reap), s.orphans[step.reap].address); }
  }

  lemma ReapedFrame(s: State, a: string)
    ensures Reaped(s, a).orphans == s.orphans && Reaped(s, a).locks == s.locks
  {
  }

  lemma OtherReap(c: Config, s: State, step: Step, reap: int, a: string)
    requires reap in s.orphans && !ActsForReap(step, reap)
    ensures SameReap(s, Next(c, s, step), reap, a)
  {
    hide NextReap, NextRef, AdvancePut;
    match step
    case Begin(_, _) =>
    case Tick(_) =>
    case Advance(i, outcome) => if i in s.puts { AdvanceFrame(c, s, i, outcome, i + 1); }
    case Look(_, _, _) => OtherReaper(s, step, reap, a);
    case Lock(_) => OtherReaper(s, step, reap, a);
    case Finish(_, _) => OtherReaper(s, step, reap, a);
    case _ => RefFrame(c, s, step);
  }

  lemma {:induction false} OthersReap(c: Config, s: State, steps: seq<Step>, reap: int, a: string)
    requires reap in s.orphans && forall j :: 0 <= j < |steps| ==> !ActsForReap(steps[j], reap)
    ensures SameReap(s, Run(c, s, steps), reap, a)
  {
    if steps != [] {
      OthersReap(c, s, steps[..|steps| - 1], reap, a);
      hide Next, Holds;
      OtherReap(c, Run(c, s, steps[..|steps| - 1]), steps[|steps| - 1], reap, a);
    }
  }

  lemma Extend(c: Config, s: State, trace: seq<Step>, more: seq<Step>)
    ensures Run(c, s, trace + more) == Run(c, Run(c, s, trace), more)
  {
    FoldAppend((t, step) => Next(c, t, step), s, trace, more);
  }

  lemma ExtendOne(c: Config, s: State, trace: seq<Step>, step: Step)
    ensures Run(c, s, trace + [step]) == Next(c, Run(c, s, trace), step)
  {
    FoldSnoc((t, st) => Next(c, t, st), s, trace, step);
  }

  class Database {
    const config: Config
    var now: int
    var rows: map<string, int>
    var bytes: map<string, string>
    var refs: map<int, Ref>
    var pending: map<int, string>
    var puts: map<int, Put>
    var orphans: map<int, Orphan>
    var locks: map<string, int>

    function State(): State
      reads this
    {
      CasProtocol.State(now, rows, bytes, refs, pending, puts, orphans, locks)
    }

    constructor (config: Config)
      ensures this.config == config && State() == INITIAL
    {
      this.config := config;
      now, rows, bytes, refs := 0, map[], map[], map[];
      pending, puts, orphans, locks := map[], map[], map[], map[];
    }

    method Install(s: State)
      modifies this
      ensures State() == s
    {
      now, rows, bytes, refs := s.now, s.rows, s.bytes, s.refs;
      pending, puts, orphans, locks := s.pending, s.puts, s.orphans, s.locks;
    }

    /** Other calls, transactions, reapers and the clock take these steps. */
    method Others(steps: seq<Step>)
      modifies this
      ensures State() == Run(config, old(State()), steps)
    {
      var i := 0;
      assert steps[..0] == [];
      while i < |steps|
        invariant 0 <= i <= |steps| && State() == Run(config, old(State()), steps[..i])
      {
        ExtendOne(config, old(State()), steps[..i], steps[i]);
        assert steps[..i + 1] == steps[..i] + [steps[i]];
        Install(Next(config, State(), steps[i]));
        i := i + 1;
      }
      assert steps[..i] == steps;
    }

    // -------------------------------------------------------- pg statements

    /** SELECT EXISTS over cas_blob_data. */
    method Has(address: string) returns (ok: bool)
      ensures ok <==> address in State().bytes
    {
      ok := address in bytes;
    }

    /** UPDATE cas_blob SET created_at; found says whether a row was there. */
    method Touch(address: string, stamp: int) returns (found: bool)
      modifies this`rows
      ensures State() == Touched(old(State()), address, stamp) && (found <==> address in old(rows))
    {
      found := address in rows;
      if found { rows := rows[address := stamp]; }
    }

    /** Metadata and bytes, each ON CONFLICT DO NOTHING, in one transaction. */
    method InsertBlob(address: string, data: string, stamp: int)
      modifies this`rows, this`bytes
      ensures State() == Inserted(old(State()), address, data, stamp)
    {
      if address !in rows { rows := rows[address := stamp]; }
      if address !in bytes { bytes := bytes[address := data]; }
    }

    method At(id: int, pc: Pc)
      requires id in puts
      modifies this`puts
      ensures State() == Goto(old(State()), id, pc)
    {
      puts := puts[id := puts[id].(pc := pc)];
    }

    // ---------------------------------------------------------- Storage.Put

    method CheckHas(id: int, outcome: Outcome) returns (found: bool, err: bool)
      requires id in puts && puts[id].pc == Looking
      modifies this`puts
      ensures State() == Next(config, old(State()), Advance(id, outcome))
      ensures id in puts
      ensures puts[id] == old(puts[id]).(pc := if err then Failed else if found then Touching else Inserting)
    {
      found := Has(config.address(puts[id].data));
      err := outcome.Fails?;
      At(id, if err then Failed else if found then Touching else Inserting);
    }

    method Send(id: int)
      requires id in puts && (puts[id].pc == Touching || puts[id].pc == Inserting)
      modifies this`puts
      ensures State() == Next(config, old(State()), Advance(id, Works))
      ensures id in puts
      ensures puts[id] == old(puts[id]).(pc := if old(puts[id]).pc == Touching then TouchSent(now) else InsertSent(now))
    {
      At(id, if puts[id].pc == Touching then TouchSent(now) else InsertSent(now));
    }

    /** A Touch still waiting for a reaper's lock when its time is up fails. */
    method ApplyTouch(id: int, outcome: Outcome) returns (touched: bool, err: bool, ghost step: Step)
      requires id in puts && puts[id].pc.TouchSent?
      modifies this`rows, this`puts
      ensures ActsForPut(step, id) && State() == Next(config, old(State()), step)
      ensures id in puts
      ensures puts[id] == old(puts[id]).(pc := if err then Failed else if touched then Returned else Inserting)
    {
      var a, stamp := config.address(puts[id].data), puts[id].pc.stamp;
      touched, err := false, outcome.Fails?;
      if a in locks || outcome == Fails(false) {
        err, step := true, Advance(id, Fails(false));
      } else {
        step := Advance(id, outcome);
        touched := Touch(a, stamp);
      }
      At(id, if err then Failed else if touched then Returned else Inserting);
    }

    method ApplyInsert(id: int, outcome: Outcome) returns (err: bool)
      requires id in puts && puts[id].pc.InsertSent?
      modifies this`rows, this`bytes, this`puts
      ensures State() == Next(config, old(State()), Advance(id, outcome))
      ensures id in puts && puts[id] == old(puts[id]).(pc := if err then Failed else Returned)
    {
      var data, stamp := puts[id].data, puts[id].pc.stamp;
      err := outcome.Fails?;
      if outcome != Fails(false) { InsertBlob(config.address(data), data, stamp); }
      At(id, if err then Failed else Returned);
    }

    /** A stretch of other steps, as part of a Put's run. */
    method Gap(steps: seq<Step>, id: int, ghost s: State, ghost before: seq<Step>) returns (ghost trace: seq<Step>)
      requires id in puts && forall j :: 0 <= j < |steps| ==> !ActsForPut(steps[j], id)
      requires State() == Run(config, s, before)
      modifies this
      ensures State() == Run(config, s, trace)
      ensures id in puts && puts[id] == old(puts[id])
    {
      OthersPut(config, State(), steps, id);
      Others(steps);
      Extend(config, s, before, steps);
      trace := before + steps;
    }

    /** The bytes are there already: restart their clock, unless they went. */
    method TouchExisting(id: int, plan: PutPlan) returns (touched: bool, err: bool, ghost trace: seq<Step>)
      requires id in puts && puts[id].pc == Touching && ValidPlan(plan, id)
      modifies this
      ensures State() == Run(config, old(State()), trace)
      ensures id in puts
      ensures puts[id] == old(puts[id]).(pc := if err then Failed else if touched then Returned else Inserting)
    {
      ghost var s := State();
      trace := Gap(plan.gaps[1], id, s, []);
      Send(id);
      ExtendOne(config, s, trace, Advance(id, Works));
      trace := Gap(plan.gaps[2], id, s, trace + [Advance(id, Works)]);
      ghost var step;
      touched, err, step := ApplyTouch(id, plan.touch);
      ExtendOne(config, s, trace, step);
      trace := trace + [step];
    }

    method InsertNew(id: int, plan: PutPlan) returns (err: bool, ghost trace: seq<Step>)
      requires id in puts && puts[id].pc == Inserting && ValidPlan(plan, id)
      modifies this
      ensures State() == Run(config, old(State()), trace)
      ensures id in puts && puts[id] == old(puts[id]).(pc := if err then Failed else Returned)
    {
      ghost var s := State();
      trace := Gap(plan.gaps[3], id, s, []);
      Send(id);
      ExtendOne(config, s, trace, Advance(id, Works));
      trace := Gap(plan.gaps[4], id, s, trace + [Advance(id, Works)]);
      err := ApplyInsert(id, plan.insert);
      ExtendOne(config, s, trace, Advance(id, plan.insert));
      trace := trace + [Advance(id, plan.insert)];
    }

    /** Has, then Touch, then (when the bytes were not there, or went in
        between) the insert. */
    method Put(id: int, data: string, plan: PutPlan) returns (address: Option<string>, ghost trace: seq<Step>)
      requires id !in puts && ValidPlan(plan, id)
      modifies this
      ensures State() == Run(config, old(State()), trace)
      ensures id in puts && puts[id] == CasProtocol.Put(data, old(now), if address.Some? then Returned else Failed)
      ensures address.Some? ==> address.value == config.address(data)
    {
      ghost var s := State();
      puts := puts[id := CasProtocol.Put(data, now, Looking)];
      ExtendOne(config, s, [], Begin(id, data));
      trace := Gap(plan.gaps[0], id, s, [] + [Begin(id, data)]);
      var found, err := CheckHas(id, plan.has);
      ExtendOne(config, s, trace, Advance(id, plan.has));
      trace := trace + [Advance(id, plan.has)];
      if err { return None, trace; }
      ghost var more;
      if found {
        var touched;
        touched, err, more := TouchExisting(id, plan);
        Extend(config, s, trace, more);
        trace := trace + more;
        if err { return None, trace; }
        if touched { return Some(config.address(data)), trace; }
      }
      err, more := InsertNew(id, plan);
      Extend(config, s, trace, more);
      trace := trace + more;
      address := if err then None else Some(config.address(data));
    }

    // -------------------------------------------------------------- reapOne

    /** What the lock statement's snapshot shows. */
    method Look(reap: int, address: string, cutoff: int) returns (orphan: bool)
      requires reap !in orphans && cutoff <= now
      modifies this`orphans
      ensures State() == Next(config, old(State()), CasProtocol.Look(reap, address, cutoff))
      ensures orphan <==> reap in orphans
      ensures orphan ==> orphans[reap] == Orphan(address, cutoff)
    {
      orphan := address in rows && rows[address] < cutoff && !InUse(State(), address);
      if orphan { orphans := orphans[reap := Orphan(address, cutoff)]; }
    }

    /** FOR UPDATE SKIP LOCKED: false when a writer holds the row, its clock was
        restarted, or it is gone. */
    method Lock(reap: int) returns (locked: bool)
      requires reap in orphans && !Holds(State(), reap, orphans[reap].address)
      modifies this
      ensures State() == Next(config, old(State()), CasProtocol.Lock(reap))
      ensures locked ==> reap in orphans && orphans[reap] == old(orphans[reap])
      ensures locked <==> Holds(State(), reap, old(orphans[reap]).address)
    {
      var o := orphans[reap];
      locked := o.address in rows && rows[o.address] < o.cutoff && o.address !in locks && o.address !in pending.Values;
      if locked {
        locks := locks[o.address := reap];
      } else {
        Install(Unlock(State(), reap));
      }
    }

    /** The dead references, the row and its bytes go, or nothing does. */
    method Finish(reap: int, committed: bool) returns (ok: bool)
      requires reap in orphans && Holds(State(), reap, orphans[reap].address)
      modifies this
      ensures State() == Next(config, old(State()), CasProtocol.Finish(reap, committed))
      ensures ok <==> committed && !old(Pinned(State(), orphans[reap].address))
      ensures ok ==> old(orphans[reap]).address !in rows && old(orphans[reap]).address !in bytes
    {
      var a := orphans[reap].address;
      ok := committed && !Pinned(State(), a);
      Install(Unlock(State(), reap));
      if ok { Install(Reaped(State(), a)); }
    }

    /** One orphan in its own transaction; false leaves every row as others left it. */
    method ReapOne(reap: int, address: string, cutoff: int, gaps: seq<seq<Step>>, committed: bool)
      returns (ok: bool, ghost trace: seq<Step>)
      requires reap !in orphans && cutoff <= now
      requires |gaps| == 2 && forall k, j :: 0 <= k < 2 && 0 <= j < |gaps[k]| ==> !ActsForReap(gaps[k][j], reap)
      requires address !in locks || locks[address] != reap
      modifies this
      ensures State() == Run(config, old(State()), trace)
      ensures ok ==> address !in rows && address !in bytes
      ensures ok ==> trace == [CasProtocol.Look(reap, address, cutoff)] + gaps[0] + [CasProtocol.Lock(reap)] +
                              gaps[1] + [CasProtocol.Finish(reap, committed)]
    {
      ghost var s := State();
      ok := false;
      var orphan := Look(reap, address, cutoff);
      ExtendOne(config, s, [], CasProtocol.Look(reap, address, cutoff));
      trace := [] + [CasProtocol.Look(reap, address, cutoff)];
      if !orphan { return; }
      OthersReap(config, State(), gaps[0], reap, address);
      Others(gaps[0]);
      Extend(config, s, trace, gaps[0]);
      trace := trace + gaps[0];
      var locked := Lock(reap);
      ExtendOne(config, s, trace, CasProtocol.Lock(reap));
      trace := trace + [CasProtocol.Lock(reap)];
      if !locked { return; }
      OthersReap(config, State(), gaps[1], reap, address);
      Others(gaps[1]);
      Extend(config, s, trace, gaps[1]);
      trace := trace + gaps[1];
      ok := Finish(reap, committed);
      ExtendOne(config, s, trace, CasProtocol.Finish(reap, committed));
      trace := trace + [CasProtocol.Finish(reap, committed)];
    }
  }
}
