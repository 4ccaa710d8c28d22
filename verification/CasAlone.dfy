/**
 What one Put, one reference and one reap come to that nobody interferes with,
 and what a statement that fails leaves behind, field by field.
 */
module CasAlone {
  import opened Prelude
  import opened CasProtocol

  function Do(c: Config, s: State, id: int): State {
    Next(c, s, Advance(id, Works))
  }

  /** The Put is at pc, rows and bytes are as said, and all else is as it was. */
  ghost predicate At(s: State, s': State, id: int, p: Put, rows: map<string, int>, bytes: map<string, string>) {
    s' == State(s.now, rows, bytes, s.refs, s.pending, s.puts[id := p], s.orphans, s.locks)
  }

  lemma ToFirst(c: Config, s: State, id: int, data: string)
    requires id !in s.puts
    ensures var s' := Do(c, Do(c, Next(c, s, Begin(id, data)), id), id);
      At(s, s', id, Put(data, s.now, if c.address(data) in s.bytes then TouchSent(s.now) else InsertSent(s.now)), s.rows, s.bytes)
  {
  }

  lemma ToTouched(c: Config, s: State, id: int)
    requires id in s.puts && s.puts[id].pc.TouchSent? && c.address(s.puts[id].data) !in s.locks
    ensures var p, a := s.puts[id], c.address(s.puts[id].data);
      At(s, Do(c, s, id), id, p.(pc := if a in s.rows then Returned else Inserting),
         if a in s.rows then s.rows[a := p.pc.stamp] else s.rows, s.bytes)
  {
  }

  lemma ToInserted(c: Config, s: State, id: int)
    requires id in s.puts && s.puts[id].pc.InsertSent?
    ensures var p, a := s.puts[id], c.address(s.puts[id].data);
      At(s, Do(c, s, id), id, p.(pc := Returned),
         if a in s.rows then s.rows else s.rows[a := p.pc.stamp], if a in s.bytes then s.bytes else s.bytes[a := p.data])
  {
  }

  /** A Put of data the store has: it restarts the row's clock, and returns. */
  lemma PutAgain(c: Config, s: State, id: int, data: string)
    requires id !in s.puts && c.address(data) in s.bytes && c.address(data) in s.rows && c.address(data) !in s.locks
    ensures var s' := Do(c, Do(c, Do(c, Next(c, s, Begin(id, data)), id), id), id);
      At(s, s', id, Put(data, s.now, Returned), s.rows[c.address(data) := s.now], s.bytes)
  {
    hide Next;
    ToFirst(c, s, id, data);
    ToTouched(c, Do(c, Do(c, Next(c, s, Begin(id, data)), id), id), id);
  }

  /** A Put of new data: row and bytes are added, and it returns. */
  lemma PutNew(c: Config, s: State, id: int, data: string)
    requires id !in s.puts && c.address(data) !in s.bytes && c.address(data) !in s.rows
    ensures var s' := Do(c, Do(c, Do(c, Next(c, s, Begin(id, data)), id), id), id);
      At(s, s', id, Put(data, s.now, Returned), s.rows[c.address(data) := s.now], s.bytes[c.address(data) := data])
  {
    hide Next;
    ToFirst(c, s, id, data);
    ToInserted(c, Do(c, Do(c, Next(c, s, Begin(id, data)), id), id), id);
  }

  /** Bytes that went between Has and Touch are stored again. */
  lemma PutAfterReap(c: Config, s: State, id: int)
    requires id in s.puts && s.puts[id].pc.TouchSent?
    requires var a := c.address(s.puts[id].data); a !in s.rows && a !in s.bytes && a !in s.locks
    ensures var p, a := s.puts[id], c.address(s.puts[id].data);
      At(s, Do(c, Do(c, Do(c, s, id), id), id), id, p.(pc := Returned), s.rows[a := s.now], s.bytes[a := p.data])
  {
    hide Next;
    ToTouched(c, s, id);
    ToSent(c, Do(c, s, id), id);
    ToInserted(c, Do(c, Do(c, s, id), id), id);
  }

  lemma ToSent(c: Config, s: State, id: int)
    requires id in s.puts && s.puts[id].pc.Inserting?
    ensures At(s, Do(c, s, id), id, s.puts[id].(pc := InsertSent(s.now)), s.rows, s.bytes)
  {
  }

  /** A Touch waits while a reaper holds the row. */
  lemma TouchWaits(c: Config, s: State, id: int, outcome: Outcome)
    requires id in s.puts && s.puts[id].pc.TouchSent? && c.address(s.puts[id].data) in s.locks
    ensures var s' := Next(c, s, Advance(id, outcome));
      if outcome == Fails(false) then At(s, s', id, s.puts[id].(pc := Failed), s.rows, s.bytes) else s' == s
  {
  }

  /** A failed statement fails the Put; it has taken its effect or none at all. */
  lemma PutFails(c: Config, s: State, id: int, applied: bool)
    requires id in s.puts
    requires var pc := s.puts[id].pc;
      pc.Looking? || pc.InsertSent? || (pc.TouchSent? && c.address(s.puts[id].data) !in s.locks)
    ensures var s', p, a := Next(c, s, Advance(id, Fails(applied))), s.puts[id], c.address(s.puts[id].data);
      var none, touch, insert := p.pc.Looking? || !applied, p.pc.TouchSent? && a in s.rows, p.pc.InsertSent? && a !in s.rows;
      At(s, s', id, p.(pc := Failed),
         if !none && (touch || insert) then s.rows[a := p.pc.stamp] else s.rows,
         if !none && p.pc.InsertSent? && a !in s.bytes then s.bytes[a := p.data] else s.bytes)
  {
  }

  // ---------------------------------------------------------------- references

  /** A row with a foreign key gets in if and only if the blob's row is there and
      no reaper holds it. */
  lemma ReferAlone(c: Config, s: State, ref: int, a: string, committed: bool)
    requires ref !in s.refs && ref !in s.pending
    ensures var begun := Next(c, s, RefBegin(ref, a)); var s' := Next(c, begun, RefEnd(ref, committed));
      && begun == (if a in s.rows && a !in s.locks then s.(pending := s.pending[ref := a]) else s)
      && s' == (if a in s.rows && a !in s.locks && committed then s.(refs := s.refs[ref := Hard(a, true)]) else s)
  {
    assert (s.pending[ref := a]) - {ref} == s.pending;
  }

  // --------------------------------------------------------------------- reaping

  /** Nobody refers to the address: no row with a foreign key whose filter holds,
      and no row without one. */
  ghost predicate Orphaned(s: State, a: string) {
    forall r :: r in s.refs && s.refs[r].address == a ==> s.refs[r].Hard? && !s.refs[r].live
  }

  /** Row, bytes and the dead references go; nothing else. */
  ghost predicate Gone(s: State, s': State, a: string) {
    && s'.rows == s.rows - {a} && s'.bytes == s.bytes - {a}
    && (forall r :: r in s'.refs <==> r in s.refs && !(s.refs[r].Hard? && s.refs[r].address == a))
    && (forall r :: r in s'.refs ==> s'.refs[r] == s.refs[r])
    && s'.pending == s.pending && s'.puts == s.puts && s'.now == s.now
  }

  lemma LookTells(c: Config, s: State, reap: int, a: string, cutoff: int)
    requires reap !in s.orphans && cutoff <= s.now
    ensures Next(c, s, Look(reap, a, cutoff)) ==
      if a in s.rows && s.rows[a] < cutoff && Orphaned(s, a) then s.(orphans := s.orphans[reap := Orphan(a, cutoff)]) else s
  {
  }

  /** The lock is had if and only if the row is there, still older than the
      cutoff, held by nobody and wanted by no transaction. */
  lemma LockTells(c: Config, s: State, reap: int)
    requires reap in s.orphans && forall a :: a in s.locks ==> s.locks[a] != reap
    ensures var o := s.orphans[reap]; var s' := Next(c, s, Lock(reap));
      var free := o.address in s.rows && s.rows[o.address] < o.cutoff && o.address !in s.locks &&
        o.address !in s.pending.Values;
      s' == if free then s.(locks := s.locks[o.address := reap]) else s.(orphans := s.orphans - {reap})
  {
    var o := s.orphans[reap];
    assert (map a | a in s.locks && s.locks[a] != reap :: s.locks[a]) == s.locks;
  }

  /** The reap is over and its lock given up; all else is as it was. */
  function GivenUp(s: State, reap: int, a: string): State {
    s.(orphans := s.orphans - {reap}, locks := s.locks - {a})
  }

  /** No row with a foreign key to it has a filter that holds. */
  ghost predicate NoneLive(s: State, a: string) {
    forall r :: r in s.refs && s.refs[r].address == a && s.refs[r].Hard? ==> !s.refs[r].live
  }

  lemma PinnedIs(s: State, a: string)
    ensures Pinned(s, a) <==> !NoneLive(s, a)
  {
  }

  lemma ReapedIsGone(s: State, over: State, a: string)
    requires over == s.(orphans := over.orphans, locks := over.locks)
    ensures var s' := Reaped(over, a); Gone(s, s', a) && s'.orphans == over.orphans && s'.locks == over.locks
  {
  }

  /** What it holds goes if and only if the transaction commits and no row whose
      filter holds has come to refer to it; the lock is given up either way. */
  lemma FinishTells(c: Config, s: State, reap: int, a: string, committed: bool)
    requires reap in s.orphans && s.orphans[reap].address == a
    requires a in s.locks && s.locks[a] == reap && forall b :: b in s.locks && b != a ==> s.locks[b] != reap
    ensures var s' := Next(c, s, Finish(reap, committed));
      && s'.orphans == s.orphans - {reap} && s'.locks == s.locks - {a}
      && if committed && NoneLive(s, a) then Gone(s, s', a) else s' == GivenUp(s, reap, a)
  {
    var over := GivenUp(s, reap, a);
    assert (map b | b in s.locks && s.locks[b] != reap :: s.locks[b]) == s.locks - {a};
    assert Unlock(s, reap) == over;
    hide Unlock, Reaped, Gone;
    ReapedIsGone(s, over, a);
    PinnedIs(s, a);
    hide Pinned, NoneLive;
    assert Next(c, s, Finish(reap, committed)) == if committed && !Pinned(s, a) then Reaped(over, a) else over;
    hide Next, NextReap;
  }

  /** Left alone, a reap takes an address if and only if its row is older than the
      cutoff, nothing refers to it, nobody holds it and no transaction is about to
      refer to it; otherwise it leaves everything as it was. */
  lemma ReapAlone(c: Config, s: State, reap: int, a: string, cutoff: int)
    requires reap !in s.orphans && cutoff <= s.now && forall b :: b in s.locks ==> s.locks[b] != reap
    ensures var s' := Next(c, Next(c, Next(c, s, Look(reap, a, cutoff)), Lock(reap)), Finish(reap, true));
      var goes := a in s.rows && s.rows[a] < cutoff && Orphaned(s, a) && a !in s.locks && a !in s.pending.Values;
      && s'.orphans == s.orphans && s'.locks == s.locks && if goes then Gone(s, s', a) else s' == s
  {
    hide Next, Orphaned, Gone;
    LookTells(c, s, reap, a, cutoff);
    if a in s.rows && s.rows[a] < cutoff && Orphaned(s, a) {
      SeenThenLock(c, s, reap, a, cutoff);
    } else {
      NothingSeen(c, s, reap);
    }
  }

  lemma SeenThenLock(c: Config, s: State, reap: int, a: string, cutoff: int)
    requires reap !in s.orphans && a in s.rows && s.rows[a] < cutoff && Orphaned(s, a)
    requires forall b :: b in s.locks ==> s.locks[b] != reap
    ensures var seen := s.(orphans := s.orphans[reap := Orphan(a, cutoff)]);
      var s' := Next(c, Next(c, seen, Lock(reap)), Finish(reap, true));
      && s'.orphans == s.orphans && s'.locks == s.locks
      && if a !in s.locks && a !in s.pending.Values then Gone(s, s', a) else s' == s
  {
    hide Next, Orphaned, Gone;
    LockTells(c, s.(orphans := s.orphans[reap := Orphan(a, cutoff)]), reap);
    if a !in s.locks && a !in s.pending.Values {
      LockedGoes(c, s, reap, a, cutoff);
    } else {
      assert s.orphans[reap := Orphan(a, cutoff)] - {reap} == s.orphans;
      NothingSeen(c, s, reap);
    }
  }

  lemma LockedGoes(c: Config, s: State, reap: int, a: string, cutoff: int)
    requires reap !in s.orphans && a !in s.locks && Orphaned(s, a) && forall b :: b in s.locks ==> s.locks[b] != reap
    ensures var held := s.(orphans := s.orphans[reap := Orphan(a, cutoff)], locks := s.locks[a := reap]);
      var s' := Next(c, held, Finish(reap, true));
      s'.orphans == s.orphans && s'.locks == s.locks && Gone(s, s', a)
  {
    hide Next;
    var held := s.(orphans := s.orphans[reap := Orphan(a, cutoff)], locks := s.locks[a := reap]);
    FinishTells(c, held, reap, a, true);
    assert s.orphans[reap := Orphan(a, cutoff)] - {reap} == s.orphans;
    assert s.locks[a := reap] - {a} == s.locks;
  }

  lemma NothingSeen(c: Config, s: State, reap: int)
    requires reap !in s.orphans
    ensures Next(c, s, Lock(reap)) == s && Next(c, s, Finish(reap, true)) == s
  {
  }
}
