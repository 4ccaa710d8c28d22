/**
 The content store under concurrent use, as a transition system: any number of
 `Storage.Put` calls on the pg backend, transactions adding and dropping
 references, and reapers.  A statement stamps its own now() when it is sent and
 may take effect later; a reaper's check reads a snapshot that may be older
 than the lock it takes.
 */
module CasProtocol {
  import opened Prelude

  /** The reaper's grace period, and the address of some data. */
  datatype Config = Config(grace: nat, address: string -> string)

  /** Where a Put is: before Has, before Touch, Touch sent, before the insert,
      its transaction begun, over. */
  datatype Pc =
    | Looking
    | Touching
    | TouchSent(stamp: int)
    | Inserting
    | InsertSent(stamp: int)
    | Returned
    | Failed

  datatype Put = Put(data: string, began: int, pc: Pc)

  /** A committed consumer row.  Some tables have a foreign key to the blob (and
      a filter that says whether the row still uses it), some only its address:
      of those, when it was recorded and when the Put it came from is no longer
      covered by the grace period. */
  datatype Ref = Hard(address: string, live: bool) | Soft(address: string, made: int, due: int)

  /** An orphan a reaper has seen, and the cutoff of its sweep. */
  datatype Orphan = Orphan(address: string, cutoff: int)

  /** `rows` is cas_blob (address to created_at), `bytes` cas_blob_data.
      `pending` are uncommitted references, `locks` who holds a row FOR UPDATE. */
  datatype State = State(
    now: int,
    rows: map<string, int>,
    bytes: map<string, string>,
    refs: map<int, Ref>,
    pending: map<int, string>,
    puts: map<int, Put>,
    orphans: map<int, Orphan>,
    locks: map<string, int>)

  /** A statement works, or reports an error after having taken effect or not. */
  datatype Outcome = Works | Fails(applied: bool)

  datatype Step =
    | Begin(id: int, data: string)
    | Advance(id: int, outcome: Outcome)
    | RefBegin(ref: int, address: string)
    | RefEnd(ref: int, committed: bool)
    | RefSoft(ref: int, put: int)
    | RefDrop(ref: int)
    | RefFlip(ref: int)
    | Look(reap: int, address: string, cutoff: int)
    | Lock(reap: int)
    | Finish(reap: int, committed: bool)
    | Tick(elapsed: nat)

  // --------------------------------------------------------------- statements

  function Goto(s: State, id: int, pc: Pc): State
    requires id in s.puts
  {
    s.(puts := s.puts[id := s.puts[id].(pc := pc)])
  }

  /** UPDATE cas_blob SET created_at. */
  function Touched(s: State, a: string, stamp: int): State {
    if a in s.rows then s.(rows := s.rows[a := stamp]) else s
  }

  /** Both inserts, ON CONFLICT DO NOTHING. */
  function Inserted(s: State, a: string, data: string, stamp: int): State {
    s.(rows := if a in s.rows then s.rows else s.rows[a := stamp],
       bytes := if a in s.bytes then s.bytes else s.bytes[a := data])
  }

  predicate InUse(s: State, a: string) {
    exists r :: r in s.refs && s.refs[r].address == a && (s.refs[r].Hard? ==> s.refs[r].live)
  }

  /** What the foreign keys refuse, once the dead references are gone. */
  predicate Pinned(s: State, a: string) {
    exists r :: r in s.refs && s.refs[r].address == a && s.refs[r].Hard? && s.refs[r].live
  }

  /** The row's transaction: dead references, the row, and by cascade its bytes. */
  function Reaped(s: State, a: string): State {
    s.(rows := s.rows - {a},
       bytes := s.bytes - {a},
       refs := map r | r in s.refs && !(s.refs[r].Hard? && s.refs[r].address == a) :: s.refs[r])
  }

  // -------------------------------------------------------------- transitions

  function AdvanceTouch(c: Config, s: State, id: int, outcome: Outcome): State
    requires id in s.puts && s.puts[id].pc.TouchSent?
  {
    var a := c.address(s.puts[id].data);
    if outcome == Fails(false) then Goto(s, id, Failed)
    else if a in s.locks then s  // waits for the reaper's row lock
    else Goto(Touched(s, a, s.puts[id].pc.stamp), id,
              if outcome.Fails? then Failed else if a in s.rows then Returned else Inserting)
  }

  function AdvanceInsert(c: Config, s: State, id: int, outcome: Outcome): State
    requires id in s.puts && s.puts[id].pc.InsertSent?
  {
    var p := s.puts[id];
    if outcome == Fails(false) then Goto(s, id, Failed)
    else Goto(Inserted(s, c.address(p.data), p.data, p.pc.stamp), id, if outcome.Fails? then Failed else Returned)
  }

  function AdvancePut(c: Config, s: State, id: int, outcome: Outcome): State
    requires id in s.puts
  {
    match s.puts[id].pc
    case Looking =>
      Goto(s, id, if outcome.Fails? then Failed
                  else if c.address(s.puts[id].data) in s.bytes then Touching else Inserting)
    case Touching => Goto(s, id, TouchSent(s.now))
    case TouchSent(_) => AdvanceTouch(c, s, id, outcome)
    case Inserting => Goto(s, id, InsertSent(s.now))
    case InsertSent(_) => AdvanceInsert(c, s, id, outcome)
    case Returned => s
    case Failed => s
  }

  function Unlock(s: State, reap: int): State {
    s.(orphans := s.orphans - {reap}, locks := map a | a in s.locks && s.locks[a] != reap :: s.locks[a])
  }

  function NextReap(s: State, step: Step): State
    requires step.Look? || step.Lock? || step.Finish?
  {
    match step
    case Look(reap, a, cutoff) =>
      if reap !in s.orphans && cutoff <= s.now && a in s.rows && s.rows[a] < cutoff && !InUse(s, a)
      then s.(orphans := s.orphans[reap := Orphan(a, cutoff)]) else s
    case Lock(reap) =>
      if reap !in s.orphans then s
      else
        var o := s.orphans[reap];
        if o.address in s.rows && s.rows[o.address] < o.cutoff && o.address !in s.locks && o.address !in s.pending.Values
        then s.(locks := s.locks[o.address := reap])
        else Unlock(s, reap)  // FOR UPDATE SKIP LOCKED found no row
    case Finish(reap, committed) =>
      if reap !in s.orphans then s
      else
        var a := s.orphans[reap].address;
        var over := Unlock(s, reap);
        if a in s.locks && s.locks[a] == reap && committed && !Pinned(s, a) then Reaped(over, a) else over
  }

  function NextRef(c: Config, s: State, step: Step): State
    requires step.RefBegin? || step.RefEnd? || step.RefSoft? || step.RefDrop? || step.RefFlip?
  {
    match step
    case RefBegin(ref, a) =>
      // the foreign key check: the row is there, and FOR KEY SHARE gets it
      if ref !in s.refs && ref !in s.pending && a in s.rows && a !in s.locks
      then s.(pending := s.pending[ref := a]) else s
    case RefEnd(ref, committed) =>
      if ref !in s.pending then s
      else s.(pending := s.pending - {ref},
              refs := if committed then s.refs[ref := Hard(s.pending[ref], true)] else s.refs)
    case RefSoft(ref, put) =>
      if ref !in s.refs && ref !in s.pending && put in s.puts && s.puts[put].pc.Returned?
      then s.(refs := s.refs[ref := Soft(c.address(s.puts[put].data), s.now, s.puts[put].began + c.grace)]) else s
    case RefDrop(ref) => s.(refs := s.refs - {ref})
    case RefFlip(ref) =>
      if ref in s.refs && s.refs[ref].Hard?
      then s.(refs := s.refs[ref := s.refs[ref].(live := !s.refs[ref].live)]) else s
  }

  function Next(c: Config, s: State, step: Step): State {
    match step
    case Begin(id, data) =>
      if id in s.puts then s else s.(puts := s.puts[id := Put(data, s.now, Looking)])
    case Advance(id, outcome) => if id in s.puts then AdvancePut(c, s, id, outcome) else s
    case Tick(elapsed) => s.(now := s.now + elapsed)
    case Look(_, _, _) => NextReap(s, step)
    case Lock(_) => NextReap(s, step)
    case Finish(_, _) => NextReap(s, step)
    case _ => NextRef(c, s, step)
  }

  function Run(c: Config, s: State, steps: seq<Step>): State {
    Fold((t, step) => Next(c, t, step), s, steps)
  }

  const INITIAL := State(0, map[], map[], map[], map[], map[], map[], map[])

  // ------------------------------------------------- what a run may be trusted with

  predicate Prompt(pc: Pc, now: int, lag: nat) {
    pc.TouchSent? || pc.InsertSent? ==> now <= pc.stamp + lag
  }

  /** Statements take effect within `lag` of their stamp; a sweep's cutoff lies
      the grace period back. */
  ghost predicate Timely(c: Config, s: State, step: Step, lag: nat) {
    match step
    case Advance(id, _) => id in s.puts ==> Prompt(s.puts[id].pc, s.now, lag)
    case Look(_, _, cutoff) => cutoff <= s.now - c.grace
    case _ => true
  }

  ghost predicate RunIsTimely(c: Config, steps: seq<Step>, lag: nat) {
    forall k :: 0 <= k < |steps| ==> Timely(c, Run(c, INITIAL, steps[..k]), steps[k], lag)
  }

  // ---------------------------------------------------------------- invariant

  ghost predicate RowsHaveBytes(c: Config, s: State) {
    s.rows.Keys == s.bytes.Keys && forall a :: a in s.bytes ==> c.address(s.bytes[a]) == a
  }

  ghost predicate LocksHold(c: Config, s: State) {
    && (forall r :: r in s.orphans ==> s.orphans[r].cutoff <= s.now - c.grace)
    && (forall a :: a in s.locks ==>
         s.locks[a] in s.orphans && s.orphans[s.locks[a]].address == a &&
         a in s.rows && s.rows[a] < s.orphans[s.locks[a]].cutoff)
    && (forall r :: r in s.pending ==> s.pending[r] !in s.locks)
  }

  /** An address recorded while its Put was younger than the grace period. */
  predicate InTime(r: Ref, lag: nat) {
    r.Soft? && r.made + lag <= r.due
  }

  /** A reference without a foreign key outlives every sweep begun before it. */
  ghost predicate SoftKept(s: State, a: string) {
    a in s.rows && forall o :: o in s.orphans && s.orphans[o].address == a ==> s.orphans[o].cutoff <= s.rows[a]
  }

  ghost predicate NoneDangles(s: State, lag: nat) {
    && (forall r :: r in s.refs && s.refs[r].Hard? ==> s.refs[r].address in s.rows)
    && (forall r :: r in s.refs && InTime(s.refs[r], lag) ==> SoftKept(s, s.refs[r].address))
    && (forall r :: r in s.pending ==> s.pending[r] in s.rows)
  }

  /** If a's row is there, its clock has run no longer than the Put. */
  ghost predicate Young(s: State, a: string, began: int, lag: nat) {
    a in s.rows ==> s.rows[a] >= began - lag
  }

  ghost predicate PutSound(c: Config, s: State, p: Put, lag: nat) {
    && p.began <= s.now
    && (p.pc.TouchSent? || p.pc.InsertSent? ==> p.began <= p.pc.stamp <= s.now)
    && (p.pc.Inserting? || p.pc.InsertSent? ==> Young(s, c.address(p.data), p.began, lag))
    && (p.pc.Returned? && s.now <= p.began + c.grace - lag ==>
         c.address(p.data) in s.rows && Young(s, c.address(p.data), p.began, lag))
  }

  ghost predicate PutsSound(c: Config, s: State, lag: nat) {
    forall id :: id in s.puts ==> PutSound(c, s, s.puts[id], lag)
  }

  ghost predicate Inv(c: Config, s: State, lag: nat) {
    RowsHaveBytes(c, s) && LocksHold(c, s) && NoneDangles(s, lag) && PutsSound(c, s, lag)
  }

  // --------------------------------------------------------------------- proof

  /** A Put's row gets a new clock, or a row and bytes it did not have. */
  lemma TouchKeeps(c: Config, s: State, a: string, stamp: int, lag: nat)
    requires Inv(c, s, lag) && lag <= c.grace && s.now - lag <= stamp <= s.now && a !in s.locks
    ensures Inv(c, Touched(s, a, stamp), lag)
  {
    var s' := Touched(s, a, stamp);
    forall id | id in s'.puts ensures PutSound(c, s', s'.puts[id], lag) {
      assert PutSound(c, s, s.puts[id], lag);
    }
  }

  lemma InsertKeeps(c: Config, s: State, a: string, data: string, stamp: int, lag: nat)
    requires Inv(c, s, lag) && s.now - lag <= stamp <= s.now && a == c.address(data)
    ensures Inv(c, Inserted(s, a, data, stamp), lag)
  {
    var s' := Inserted(s, a, data, stamp);
    forall id | id in s'.puts ensures PutSound(c, s', s'.puts[id], lag) {
      assert PutSound(c, s, s.puts[id], lag);
    }
  }

  /** One Put begins, or moves on. */
  lemma PutKeeps(c: Config, s: State, id: int, p: Put, lag: nat)
    requires Inv(c, s, lag) && PutSound(c, s, p, lag)
    ensures Inv(c, s.(puts := s.puts[id := p]), lag)
  {
    var s' := s.(puts := s.puts[id := p]);
    assert LocksHold(c, s') && NoneDangles(s', lag) && RowsHaveBytes(c, s');
    hide LocksHold, NoneDangles, RowsHaveBytes;
    forall k | k in s'.puts ensures PutSound(c, s', s'.puts[k], lag) {
      assert k != id ==> PutSound(c, s, s.puts[k], lag);
    }
  }

  lemma GotoKeeps(c: Config, s: State, id: int, pc: Pc, lag: nat)
    requires Inv(c, s, lag) && id in s.puts && PutSound(c, s, s.puts[id].(pc := pc), lag)
    ensures Inv(c, Goto(s, id, pc), lag)
  {
    hide Inv, PutSound;
    PutKeeps(c, s, id, s.puts[id].(pc := pc), lag);
  }

  lemma AdvanceTouchKeeps(c: Config, s: State, id: int, outcome: Outcome, lag: nat)
    requires Inv(c, s, lag) && lag <= c.grace && id in s.puts && s.puts[id].pc.TouchSent?
    requires Prompt(s.puts[id].pc, s.now, lag)
    ensures Inv(c, AdvanceTouch(c, s, id, outcome), lag)
  {
    var p := s.puts[id];
    var a := c.address(p.data);
    assert PutSound(c, s, p, lag);
    hide Inv;
    if outcome == Fails(false) {
      GotoKeeps(c, s, id, Failed, lag);
    } else if a !in s.locks {
      TouchKeeps(c, s, a, p.pc.stamp, lag);
      GotoKeeps(c, Touched(s, a, p.pc.stamp), id, AdvanceTouch(c, s, id, outcome).puts[id].pc, lag);
    }
  }

  lemma AdvanceInsertKeeps(c: Config, s: State, id: int, outcome: Outcome, lag: nat)
    requires Inv(c, s, lag) && id in s.puts && s.puts[id].pc.InsertSent?
    requires Prompt(s.puts[id].pc, s.now, lag)
    ensures Inv(c, AdvanceInsert(c, s, id, outcome), lag)
  {
    var p := s.puts[id];
    var a := c.address(p.data);
    assert PutSound(c, s, p, lag);
    hide Inv;
    if outcome == Fails(false) {
      GotoKeeps(c, s, id, Failed, lag);
    } else {
      InsertKeeps(c, s, a, p.data, p.pc.stamp, lag);
      GotoKeeps(c, Inserted(s, a, p.data, p.pc.stamp), id, AdvanceInsert(c, s, id, outcome).puts[id].pc, lag);
    }
  }

  lemma AdvanceKeeps(c: Config, s: State, id: int, outcome: Outcome, lag: nat)
    requires Inv(c, s, lag) && lag <= c.grace && id in s.puts && Prompt(s.puts[id].pc, s.now, lag)
    ensures Inv(c, AdvancePut(c, s, id, outcome), lag)
  {
    var p := s.puts[id];
    assert PutSound(c, s, p, lag);
    hide LocksHold, NoneDangles, PutsSound, AdvanceTouch, AdvanceInsert;
    match p.pc
    case TouchSent(_) => AdvanceTouchKeeps(c, s, id, outcome, lag);
    case InsertSent(_) => AdvanceInsertKeeps(c, s, id, outcome, lag);
    case Returned =>
    case Failed =>
    case _ => GotoKeeps(c, s, id, AdvancePut(c, s, id, outcome).puts[id].pc, lag);
  }

  lemma PutsKeep(c: Config, s: State, s': State, lag: nat)
    requires PutsSound(c, s, lag) && s'.puts == s.puts && s'.rows == s.rows && s.now <= s'.now
    ensures PutsSound(c, s', lag)
  {
    forall id | id in s'.puts ensures PutSound(c, s', s'.puts[id], lag) {
      assert PutSound(c, s, s.puts[id], lag);
    }
  }

  lemma UnlockKeeps(c: Config, s: State, reap: int, lag: nat)
    requires Inv(c, s, lag)
    ensures Inv(c, Unlock(s, reap), lag)
  {
    PutsKeep(c, s, Unlock(s, reap), lag);
  }

  /** A row goes only when it is older than its sweep's cutoff: no young Put
      has returned it, and no reference, of either kind, is left behind. */
  lemma ReapKeeps(c: Config, s: State, reap: int, lag: nat)
    requires Inv(c, s, lag) && reap in s.orphans
    requires var a := s.orphans[reap].address; a in s.locks && s.locks[a] == reap && !Pinned(s, a)
    ensures Inv(c, Reaped(Unlock(s, reap), s.orphans[reap].address), lag)
  {
    var o := s.orphans[reap];
    var s' := Reaped(Unlock(s, reap), o.address);
    assert s.rows[o.address] < o.cutoff <= s.now - c.grace;
    forall id | id in s'.puts ensures PutSound(c, s', s'.puts[id], lag) {
      assert PutSound(c, s, s.puts[id], lag);
    }
    assert forall r | r in s.refs && InTime(s.refs[r], lag) :: s.refs[r].address != o.address;
  }

  lemma ReaperKeeps(c: Config, s: State, step: Step, lag: nat)
    requires Inv(c, s, lag) && Timely(c, s, step, lag) && (step.Look? || step.Lock? || step.Finish?)
    ensures Inv(c, NextReap(s, step), lag)
  {
    var s' := NextReap(s, step);
    hide PutsSound, NoneDangles, RowsHaveBytes, Reaped, Unlock;
    match step
    case Look(_, _, _) => LookKeeps(c, s, step, lag);
    case Lock(reap) => LockKeeps(c, s, reap, lag);
    case Finish(reap, _) =>
      UnlockKeeps(c, s, reap, lag);
      if reap in s.orphans && s' != Unlock(s, reap) { ReapKeeps(c, s, reap, lag); }
  }

  /** Only references, orphans and locks changed. */
  lemma RestKeeps(c: Config, s: State, s': State, lag: nat)
    requires RowsHaveBytes(c, s) && PutsSound(c, s, lag)
    requires s'.now == s.now && s'.rows == s.rows && s'.bytes == s.bytes && s'.puts == s.puts
    requires LocksHold(c, s') && NoneDangles(s', lag)
    ensures Inv(c, s', lag)
  {
    hide LocksHold, NoneDangles;
    PutsKeep(c, s, s', lag);
  }

  lemma LookKeeps(c: Config, s: State, step: Step, lag: nat)
    requires Inv(c, s, lag) && Timely(c, s, step, lag) && step.Look?
    ensures Inv(c, NextReap(s, step), lag)
  {
    hide PutsSound, RowsHaveBytes;
    LookSpares(s, step, lag);
    hide InUse;
    RestKeeps(c, s, NextReap(s, step), lag);
  }

  /** A sweep looks past addresses recorded without a foreign key. */
  lemma LookSpares(s: State, step: Step, lag: nat)
    requires NoneDangles(s, lag) && step.Look?
    ensures NoneDangles(NextReap(s, step), lag)
  {
  }

  lemma LockKeeps(c: Config, s: State, reap: int, lag: nat)
    requires Inv(c, s, lag)
    ensures Inv(c, NextReap(s, Lock(reap)), lag)
  {
    hide PutsSound, RowsHaveBytes;
    var s' := NextReap(s, Lock(reap));
    if s' == s || s' == Unlock(s, reap) {
      UnlockKeeps(c, s, reap, lag);
    } else {
      hide Unlock;
      assert forall r | r in s.pending :: s.pending[r] in s.pending.Values;
      RestKeeps(c, s, s', lag);
    }
  }

  /** An address recorded in time is out of the reach of every sweep under way. */
  lemma SoftKeeps(c: Config, s: State, step: Step, lag: nat)
    requires LocksHold(c, s) && NoneDangles(s, lag) && step.RefSoft?
    requires step.put in s.puts ==> PutSound(c, s, s.puts[step.put], lag)
    ensures LocksHold(c, NextRef(c, s, step)) && NoneDangles(NextRef(c, s, step), lag)
  {
  }

  lemma RefsOnly(c: Config, s: State, step: Step)
    requires step.RefBegin? || step.RefEnd? || step.RefSoft? || step.RefDrop? || step.RefFlip?
    ensures var s' := NextRef(c, s, step);
      s'.now == s.now && s'.rows == s.rows && s'.bytes == s.bytes && s'.puts == s.puts
  {
  }

  lemma HardKeeps(c: Config, s: State, step: Step, lag: nat)
    requires LocksHold(c, s) && NoneDangles(s, lag)
    requires step.RefBegin? || step.RefEnd? || step.RefDrop? || step.RefFlip?
    ensures LocksHold(c, NextRef(c, s, step)) && NoneDangles(NextRef(c, s, step), lag)
  {
  }

  lemma RefsKeep(c: Config, s: State, step: Step, lag: nat)
    requires Inv(c, s, lag) && Timely(c, s, step, lag)
    requires step.RefBegin? || step.RefEnd? || step.RefSoft? || step.RefDrop? || step.RefFlip?
    ensures Inv(c, NextRef(c, s, step), lag)
  {
    if step.RefSoft? && step.put in s.puts { assert PutSound(c, s, s.puts[step.put], lag); }
    hide PutsSound, RowsHaveBytes, PutSound, NoneDangles;
    if step.RefSoft? { SoftKeeps(c, s, step, lag); } else { HardKeeps(c, s, step, lag); }
    RefsOnly(c, s, step);
    hide NextRef, LocksHold;
    RestKeeps(c, s, NextRef(c, s, step), lag);
  }

  lemma TickKeeps(c: Config, s: State, elapsed: nat, lag: nat)
    requires Inv(c, s, lag)
    ensures Inv(c, s.(now := s.now + elapsed), lag)
  {
    PutsKeep(c, s, s.(now := s.now + elapsed), lag);
  }

  lemma StepKeeps(c: Config, s: State, step: Step, lag: nat)
    requires Inv(c, s, lag) && lag <= c.grace && Timely(c, s, step, lag)
    ensures Inv(c, Next(c, s, step), lag)
  {
    hide RowsHaveBytes, LocksHold, NoneDangles;
    match step
    case Begin(id, data) => if id !in s.puts { PutKeeps(c, s, id, Put(data, s.now, Looking), lag); }
    case Advance(id, outcome) => if id in s.puts { AdvanceKeeps(c, s, id, outcome, lag); }
    case Tick(elapsed) => TickKeeps(c, s, elapsed, lag);
    case Look(_, _, _) => ReaperKeeps(c, s, step, lag);
    case Lock(_) => ReaperKeeps(c, s, step, lag);
    case Finish(_, _) => ReaperKeeps(c, s, step, lag);
    case _ => RefsKeep(c, s, step, lag);
  }

  lemma {:induction false} RunKeepsInv(c: Config, steps: seq<Step>, lag: nat)
    requires lag <= c.grace && RunIsTimely(c, steps, lag)
    ensures Inv(c, Run(c, INITIAL, steps), lag)
  {
    if steps != [] {
      var init := steps[..|steps| - 1];
      TimelyInit(c, steps, lag);
      RunKeepsInv(c, init, lag);
      hide Inv;
      StepKeeps(c, Run(c, INITIAL, init), steps[|steps| - 1], lag);
    } else {
      assert RowsHaveBytes(c, INITIAL) && LocksHold(c, INITIAL) && NoneDangles(INITIAL, lag);
    }
  }

  lemma TimelyInit(c: Config, steps: seq<Step>, lag: nat)
    requires steps != [] && RunIsTimely(c, steps, lag)
    ensures RunIsTimely(c, steps[..|steps| - 1], lag)
    ensures Timely(c, Run(c, INITIAL, steps[..|steps| - 1]), steps[|steps| - 1], lag)
  {
    var init := steps[..|steps| - 1];
    forall k | 0 <= k < |init| ensures Timely(c, Run(c, INITIAL, init[..k]), init[k], lag) {
      assert init[..k] == steps[..k];
    }
  }

  // ------------------------------------------------------------------ theorems

  /** In every run a blob row exists exactly when its bytes do, the bytes are
      the address's own, and no reference dangles: none with a foreign key, and
      none without one that was recorded in time. */
  lemma StoreIsSound(c: Config, steps: seq<Step>, lag: nat)
    requires lag <= c.grace && RunIsTimely(c, steps, lag)
    ensures var s := Run(c, INITIAL, steps);
      && s.rows.Keys == s.bytes.Keys
      && (forall a :: a in s.bytes ==> c.address(s.bytes[a]) == a)
      && (forall r :: r in s.refs && (s.refs[r].Hard? || InTime(s.refs[r], lag)) ==> s.refs[r].address in s.bytes)
      && (forall r :: r in s.pending ==> s.pending[r] in s.bytes)
  {
    RunKeepsInv(c, steps, lag);
  }

  /** An address a Put returned stays stored until the grace period, counted
      from when that Put began, is over (less what a statement may lag). */
  ghost predicate StoredFor(c: Config, s: State, id: int, keep: int) {
    id in s.puts && s.puts[id].pc.Returned? && s.now <= s.puts[id].began + keep ==>
      c.address(s.puts[id].data) in s.bytes
  }

  lemma ReturnedStays(c: Config, steps: seq<Step>, lag: nat, id: int)
    requires lag <= c.grace && RunIsTimely(c, steps, lag)
    ensures StoredFor(c, Run(c, INITIAL, steps), id, c.grace - lag)
  {
    RunKeepsInv(c, steps, lag);
    var s := Run(c, INITIAL, steps);
    if id in s.puts { assert PutSound(c, s, s.puts[id], lag); }
  }

  ghost predicate Injective(c: Config) {
    forall a, b :: c.address(a) == c.address(b) ==> a == b
  }

  /** What is read back under a stored address is what was put. */
  lemma ReadsBack(c: Config, steps: seq<Step>, lag: nat, id: int)
    requires lag <= c.grace && RunIsTimely(c, steps, lag) && Injective(c)
    ensures var s := Run(c, INITIAL, steps);
      id in s.puts && c.address(s.puts[id].data) in s.bytes ==>
        s.bytes[c.address(s.puts[id].data)] == s.puts[id].data
  {
    RunKeepsInv(c, steps, lag);
  }

  ghost predicate StaysFor(c: Config, lag: nat, keep: int) {
    forall steps, id :: RunIsTimely(c, steps, lag) ==> StoredFor(c, Run(c, INITIAL, steps), id, keep)
  }

  lemma TimelySnoc(c: Config, steps: seq<Step>, step: Step, lag: nat)
    requires RunIsTimely(c, steps, lag) && Timely(c, Run(c, INITIAL, steps), step, lag)
    ensures RunIsTimely(c, steps + [step], lag)
    ensures Run(c, INITIAL, steps + [step]) == Next(c, Run(c, INITIAL, steps), step)
  {
    var all := steps + [step];
    assert all[..|steps|] == steps;
    forall k | 0 <= k < |all| ensures Timely(c, Run(c, INITIAL, all[..k]), all[k], lag) {
      if k < |steps| { assert all[..k] == steps[..k]; }
    }
  }

  /** One more step of a run, from a state we know to one we know. */
  lemma Take(c: Config, steps: seq<Step>, s: State, step: Step, s': State, lag: nat) returns (more: seq<Step>)
    requires RunIsTimely(c, steps, lag) && Run(c, INITIAL, steps) == s
    requires Timely(c, s, step, lag) && Next(c, s, step) == s'
    ensures RunIsTimely(c, more, lag) && Run(c, INITIAL, more) == s'
  {
    hide Run, Timely, Next;
    TimelySnoc(c, steps, step, lag);
    more := steps + [step];
  }

  /** Two Puts of the same bytes: the second began while the first's insert was
      under way, and took over a row stamped before it. */
  function Two(now: int, rows: map<string, int>, bytes: map<string, string>, first: Pc, began: int, second: Pc): State {
    State(now, rows, bytes, map[], map[], map[1 := Put("", 0, first), 2 := Put("", began, second)], map[], map[])
  }

  lemma ReachSecond(c: Config, lag: nat) returns (steps: seq<Step>)
    ensures RunIsTimely(c, steps, lag)
    ensures Run(c, INITIAL, steps) == Two(lag, map[], map[], InsertSent(0), lag, Inserting)
  {
    hide RunIsTimely, Run;
    var s := INITIAL;
    steps := [];
    assert RunIsTimely(c, [], lag) && Run(c, INITIAL, []) == INITIAL by { EmptyRun(c, lag); }
    var s1 := s.(puts := map[1 := Put("", 0, Looking)]);
    steps := Take(c, steps, s, Begin(1, ""), s1, lag);
    var s2 := s.(puts := map[1 := Put("", 0, Inserting)]);
    steps := Take(c, steps, s1, Advance(1, Works), s2, lag);
    var s3 := s.(puts := map[1 := Put("", 0, InsertSent(0))]);
    steps := Take(c, steps, s2, Advance(1, Works), s3, lag);
    steps := Take(c, steps, s3, Tick(lag), s3.(now := lag), lag);
    var s4 := Two(lag, map[], map[], InsertSent(0), lag, Looking);
    steps := Take(c, steps, s3.(now := lag), Begin(2, ""), s4, lag);
    steps := Take(c, steps, s4, Advance(2, Works), Two(lag, map[], map[], InsertSent(0), lag, Inserting), lag);
  }

  lemma EmptyRun(c: Config, lag: nat)
    ensures RunIsTimely(c, [], lag) && Run(c, INITIAL, []) == INITIAL
  {
  }

  /** The second Put's address is reaped one tick past its guarantee. */
  lemma ReapedEarly(c: Config, lag: nat) returns (steps: seq<Step>)
    requires lag <= c.grace
    ensures RunIsTimely(c, steps, lag)
    ensures Run(c, INITIAL, steps) == Two(c.grace + 1, map[], map[], Returned, lag, Returned)
  {
    hide RunIsTimely, Run;
    var a := c.address("");
    steps := ReachSecond(c, lag);
    var rows, bytes := map[a := 0], map[a := ""];
    steps := Take(c, steps, Two(lag, map[], map[], InsertSent(0), lag, Inserting), Advance(1, Works),
                  Two(lag, rows, bytes, Returned, lag, Inserting), lag);
    steps := Take(c, steps, Two(lag, rows, bytes, Returned, lag, Inserting), Advance(2, Works),
                  Two(lag, rows, bytes, Returned, lag, InsertSent(lag)), lag);
    steps := Take(c, steps, Two(lag, rows, bytes, Returned, lag, InsertSent(lag)), Advance(2, Works),
                  Two(lag, rows, bytes, Returned, lag, Returned), lag);
    steps := ReapIt(c, lag, steps);
  }

  lemma FinishTwo(c: Config, lag: nat, a: string)
    ensures var locked := Two(c.grace + 1, map[a := 0], map[a := ""], Returned, lag, Returned)
                            .(orphans := map[0 := Orphan(a, 1)], locks := map[a := 0]);
      Next(c, locked, Finish(0, true)) == Two(c.grace + 1, map[], map[], Returned, lag, Returned)
  {
  }

  lemma ReapIt(c: Config, lag: nat, before: seq<Step>) returns (steps: seq<Step>)
    requires lag <= c.grace && RunIsTimely(c, before, lag)
    requires var a := c.address("");
      Run(c, INITIAL, before) == Two(lag, map[a := 0], map[a := ""], Returned, lag, Returned)
    ensures RunIsTimely(c, steps, lag)
    ensures Run(c, INITIAL, steps) == Two(c.grace + 1, map[], map[], Returned, lag, Returned)
  {
    hide RunIsTimely, Run;
    var a := c.address("");
    var aged := Two(c.grace + 1, map[a := 0], map[a := ""], Returned, lag, Returned);
    steps := Take(c, before, Two(lag, map[a := 0], map[a := ""], Returned, lag, Returned), Tick(c.grace + 1 - lag), aged, lag);
    var seen := aged.(orphans := map[0 := Orphan(a, 1)]);
    steps := Take(c, steps, aged, Look(0, a, 1), seen, lag);
    steps := Take(c, steps, seen, Lock(0), seen.(locks := map[a := 0]), lag);
    hide Next;
    FinishTwo(c, lag, a);
    steps := Take(c, steps, seen.(locks := map[a := 0]), Finish(0, true),
                  Two(c.grace + 1, map[], map[], Returned, lag, Returned), lag);
  }

  /** And an address recorded without a foreign key one tick late can dangle. */
  lemma LateAddressDangles(c: Config, lag: nat) returns (steps: seq<Step>)
    requires lag <= c.grace
    ensures RunIsTimely(c, steps, lag)
    ensures var s := Run(c, INITIAL, steps);
      && var late := Next(c, s, RefSoft(0, 2));
         0 in late.refs && late.refs[0].Soft? && late.refs[0].made + lag == late.refs[0].due + 1
         && late.refs[0].address !in late.bytes
  {
    hide RunIsTimely, Run;
    steps := ReapedEarly(c, lag);
  }

  /** A row without a foreign key, recorded at most `slack` after its Put was last
      covered, points at stored bytes. */
  ghost predicate SoftStands(s: State, r: int, lag: nat, slack: int) {
    r in s.refs && s.refs[r].Soft? && s.refs[r].made + lag <= s.refs[r].due + slack ==> s.refs[r].address in s.bytes
  }

  ghost predicate NoSoftDangles(c: Config, lag: nat, slack: int) {
    forall steps, r :: RunIsTimely(c, steps, lag) ==> SoftStands(Run(c, INITIAL, steps), r, lag, slack)
  }

  /** For such rows too the time is exact: not a tick more can be allowed. */
  lemma SoftIsTight(c: Config, lag: nat, slack: int)
    requires lag <= c.grace
    ensures NoSoftDangles(c, lag, slack) <==> slack <= 0
  {
    hide RunIsTimely, Run, Next;
    if slack <= 0 {
      forall steps, r | RunIsTimely(c, steps, lag) ensures SoftStands(Run(c, INITIAL, steps), r, lag, slack) {
        StoreIsSound(c, steps, lag);
      }
    } else {
      var steps := LateAddressDangles(c, lag);
      assert Timely(c, Run(c, INITIAL, steps), RefSoft(0, 2), lag);
      TimelySnoc(c, steps, RefSoft(0, 2), lag);
      assert !SoftStands(Run(c, INITIAL, steps + [RefSoft(0, 2)]), 0, lag, slack);
    }
  }

  /** The guarantee is exact: no more than grace less lag can be promised. */
  lemma GraceIsTight(c: Config, lag: nat, keep: int)
    requires lag <= c.grace
    ensures StaysFor(c, lag, keep) <==> keep <= c.grace - lag
  {
    hide RunIsTimely, Run;
    if keep <= c.grace - lag {
      forall steps, id | RunIsTimely(c, steps, lag) ensures StoredFor(c, Run(c, INITIAL, steps), id, keep) {
        ReturnedStays(c, steps, lag, id);
      }
    } else {
      var steps := ReapedEarly(c, lag);
      assert !StoredFor(c, Run(c, INITIAL, steps), 2, keep);
    }
  }
}
