/**
 A whole batch with its repeated reads left out against the same batch with
 every sub-request run.
 */
module DispatchDedup {
  import opened Dedup
  import opened Dispatch
  import opened DispatchBatch
  import opened DispatchGate

  /** A read that works leaves the state alone. */
  ghost predicate ReadsLeave<S(!new)>(handlers: Registry, run: Slice<S>) {
    forall name, ins: seq<string>, s :: ins != [] && IsRead(handlers, name) ==> LeavesAt(run, name, ins, s)
  }

  ghost predicate LeavesAt<S>(run: Slice<S>, name: Name, ins: seq<string>, s: S)
    requires ins != []
  {
    var e := Call(run, name, ins, s); e.Done? ==> e.state == s
  }

  /** No write lies between a repeat and the read it repeats. */
  ghost predicate Undisturbed(handlers: Registry, subs: seq<Sub>, dup: map<int, int>) {
    forall i :: i in dup ==> Leads(handlers, subs, dup[i], i) && OnlyReadsBetween(handlers, subs, dup[i], i)
  }

  ghost predicate Answered(leaves: seq<Leaf>, outs: seq<string>, i: int, o: string)
    requires |outs| == |leaves|
  {
    exists k :: AnswersFor(leaves, i, k) && outs[k] == o
  }

  lemma AnsweredOnce(leaves: seq<Leaf>, outs: seq<string>, dup: map<int, int>, n: nat, i: int, o: string, p: string)
    requires |outs| == |leaves| && Covers(leaves, dup, n) && Answered(leaves, outs, i, o) && Answered(leaves, outs, i, p)
    ensures o == p
  {
  }

  lemma AnsweredStill(a: seq<Leaf>, outs: seq<string>, b: seq<Leaf>, more: seq<string>, i: int, o: string)
    requires |outs| == |a| && |more| == |b| && Answered(a, outs, i, o)
    ensures Answered(a + b, outs + more, i, o)
  {
    var k :| AnswersFor(a, i, k) && outs[k] == o;
    assert AnswersFor(a + b, i, k) && (outs + more)[k] == o;
  }

  lemma AnsweredNew(a: seq<Leaf>, outs: seq<string>, b: seq<Leaf>, more: seq<string>, i: int, o: string)
    requires |outs| == |a| && |more| == |b| && Answered(b, more, i, o)
    ensures Answered(a + b, outs + more, i, o)
  {
    var k :| AnswersFor(b, i, k) && more[k] == o;
    assert AnswersFor(a + b, i, |a| + k) && (outs + more)[|a| + k] == o;
  }

  /** Run with nothing left out, the first n sub-requests all work. */
  ghost predicate Works<S>(sys: System<S>, subs: seq<Sub>, s: S, n: nat)
    requires n <= |subs|
  {
    ExpandAll(sys, subs, map[], n).Leaves? && Alone(sys.run, ExpandAll(sys, subs, map[], n).leaves, s).Done?
  }

  function StateAt<S>(sys: System<S>, subs: seq<Sub>, s: S, n: nat): S
    requires n <= |subs| && Works(sys, subs, s, n)
  {
    Alone(sys.run, ExpandAll(sys, subs, map[], n).leaves, s).state
  }

  lemma {:induction false} AloneOuts<S>(run: Slice<S>, leaves: seq<Leaf>, s: S)
    ensures Alone(run, leaves, s).Done? ==> |Alone(run, leaves, s).outs| == |leaves|
    decreases |leaves|
  {
    if leaves != [] {
      var first := Call(run, leaves[0].name, [leaves[0].input], s);
      if first.Done? { AloneOuts(run, leaves[1..], first.state); }
    }
  }

  /** The next sub-request's leaves run from where the ones before left off. */
  lemma WorksStep<S>(sys: System<S>, subs: seq<Sub>, s: S, n: nat)
    requires n < |subs| && Works(sys, subs, s, n + 1)
    ensures Works(sys, subs, s, n) && Expand(sys, n, subs[n]).Leaves?
    ensures var before, more := ExpandAll(sys, subs, map[], n).leaves, Expand(sys, n, subs[n]).leaves;
      var e := Alone(sys.run, more, StateAt(sys, subs, s, n));
      && ExpandAll(sys, subs, map[], n + 1).leaves == before + more
      && e.Done? && e.state == StateAt(sys, subs, s, n + 1)
      && Alone(sys.run, before + more, s).outs == Alone(sys.run, before, s).outs + e.outs
  {
    var before, more := ExpandAll(sys, subs, map[], n).leaves, Expand(sys, n, subs[n]).leaves;
    AloneAppend(sys.run, before, more, s);
  }

  /** A read is one leaf, and the state stays. */
  lemma ReadStep<S(!new)>(sys: System<S>, subs: seq<Sub>, s: S, n: nat) returns (o: string)
    requires n < |subs| && Works(sys, subs, s, n + 1)
    requires IsRead(sys.handlers, subs[n].name) && ReadsLeave(sys.handlers, sys.run)
    ensures Works(sys, subs, s, n) && StateAt(sys, subs, s, n + 1) == StateAt(sys, subs, s, n)
    ensures Expand(sys, n, subs[n]) == Leaves([Leaf(n, subs[n].name, subs[n].data, true)])
    ensures Alone(sys.run, Expand(sys, n, subs[n]).leaves, StateAt(sys, subs, s, n)) == Done(StateAt(sys, subs, s, n), [o])
    ensures Call(sys.run, subs[n].name, [subs[n].data], StateAt(sys, subs, s, n)) == Done(StateAt(sys, subs, s, n), [o])
  {
    WorksStep(sys, subs, s, n);
    var t, leaf := StateAt(sys, subs, s, n), Leaf(n, subs[n].name, subs[n].data, true);
    OneLeaf(sys.run, leaf, t);
    assert LeavesAt(sys.run, leaf.name, [leaf.input], t);
    var e := Call(sys.run, leaf.name, [leaf.input], t);
    o := e.outs[0];
    assert e.outs == [o];
  }

  lemma OneLeaf<S>(run: Slice<S>, leaf: Leaf, t: S)
    ensures Alone(run, [leaf], t) == Call(run, leaf.name, [leaf.input], t)
  {
    assert [leaf][1..] == [];
    NothingLast(Call(run, leaf.name, [leaf.input], t), (u: S) => Alone(run, [leaf][1..], u));
  }

  /** What a read answered once it answers again, while only reads run. */
  lemma {:induction false} ReadAnswers<S(!new)>(sys: System<S>, subs: seq<Sub>, s: S, l: nat, n: nat) returns (o: string)
    requires l < n <= |subs| && Works(sys, subs, s, n) && ReadsLeave(sys.handlers, sys.run)
    requires forall k :: l <= k < n ==> IsRead(sys.handlers, subs[k].name)
    ensures Call(sys.run, subs[l].name, [subs[l].data], StateAt(sys, subs, s, n)) == Done(StateAt(sys, subs, s, n), [o])
    ensures var leaves := ExpandAll(sys, subs, map[], n).leaves;
      var outs := Alone(sys.run, leaves, s).outs; |outs| == |leaves| && Answered(leaves, outs, l, o)
  {
    hide Alone, Call, Expand, ReadsLeave;
    var before := ExpandAll(sys, subs, map[], n - 1).leaves;
    AloneOuts(sys.run, ExpandAll(sys, subs, map[], n).leaves, s);
    WorksStep(sys, subs, s, n - 1);
    AloneOuts(sys.run, before, s);
    var p := ReadStep(sys, subs, s, n - 1);
    var leaf := Leaf(n - 1, subs[n - 1].name, subs[n - 1].data, true);
    if l == n - 1 {
      o := p;
      assert AnswersFor([leaf], l, 0);
      AnsweredNew(before, Alone(sys.run, before, s).outs, [leaf], [p], l, o);
    } else {
      o := ReadAnswers(sys, subs, s, l, n - 1);
      AnsweredStill(before, Alone(sys.run, before, s).outs, [leaf], [p], l, o);
    }
  }

  /** Both runs of the first n sub-requests end in one state, and what answers a
      sub-request in one answers its leader in the other. */
  ghost predicate Alike<S>(sys: System<S>, subs: seq<Sub>, dup: map<int, int>, s: S, n: nat)
    requires n <= |subs| && Works(sys, subs, s, n)
  {
    var plain, x := ExpandAll(sys, subs, map[], n).leaves, ExpandAll(sys, subs, dup, n);
    x.Leaves? && AlikeRuns(Alone(sys.run, plain, s), plain, Alone(sys.run, x.leaves, s), x.leaves, dup, n)
  }

  ghost predicate AlikeRuns<S>(e: Exec<S>, plain: seq<Leaf>, f: Exec<S>, kept: seq<Leaf>, dup: map<int, int>, n: nat) {
    && e.Done? && f.Done? && |e.outs| == |plain| && |f.outs| == |kept| && f.state == e.state
    && forall i :: 0 <= i < n ==> SameAnswer(plain, e.outs, i, kept, f.outs, Leader(dup, i))
  }

  ghost predicate SameAnswer(plain: seq<Leaf>, outs: seq<string>, i: int, kept: seq<Leaf>, outs': seq<string>, l: int)
    requires |outs| == |plain| && |outs'| == |kept|
  {
    exists o :: Answered(plain, outs, i, o) && Answered(kept, outs', l, o)
  }

  /** Both runs stop at a leaf of the same sub-request, for the same reason. */
  ghost predicate StopAlike<S>(e: Exec<S>, plain: seq<Leaf>, f: Exec<S>, kept: seq<Leaf>) {
    && e.Failed? && f.Failed? && e.error == f.error && e.leaf < |plain| && f.leaf < |kept|
    && plain[e.leaf].outer == kept[f.leaf].outer
  }

  /** With no write between a read and its repeat, the run without the repeats
      works exactly when the full one does, in one state with one answer a
      sub-request; and where it stops, both stop alike. */
  lemma {:induction false} RunsAlike<S(!new)>(sys: System<S>, subs: seq<Sub>, dup: map<int, int>, s: S, n: nat)
    requires n <= |subs| && ValidDup(dup, |subs|) && ExpandAll(sys, subs, map[], n).Leaves?
    requires ReadsLeave(sys.handlers, sys.run) && Undisturbed(sys.handlers, subs, dup)
    ensures ExpandAll(sys, subs, dup, n).Leaves?
    ensures var plain, kept := ExpandAll(sys, subs, map[], n).leaves, ExpandAll(sys, subs, dup, n).leaves;
      var e, f := Alone(sys.run, plain, s), Alone(sys.run, kept, s);
      AlikeRuns(e, plain, f, kept, dup, n) || StopAlike(e, plain, f, kept)
  {
    hide Alone, Call, Expand, ReadsLeave, Undisturbed, Leads, SameAnswer;
    UndisturbedLed(sys.handlers, subs, dup);
    SameExpansion(sys, subs, dup, n);
    if n > 0 {
      SameExpansion(sys, subs, dup, n - 1);
      RunsAlike(sys, subs, dup, s, n - 1);
      if !Works(sys, subs, s, n - 1) {
        StopsStill(sys, subs, dup, s, n);
      } else if n - 1 in dup {
        WorksOnRepeat(sys, subs, dup, s, n);
        RepeatAlike(sys, subs, dup, s, n);
      } else if Works(sys, subs, s, n) {
        LeaderAlike(sys, subs, dup, s, n);
      } else {
        LeaderStops(sys, subs, dup, s, n);
      }
    } else {
      NothingAlike(sys.run, s, dup);
    }
  }

  lemma UndisturbedLed(handlers: Registry, subs: seq<Sub>, dup: map<int, int>)
    requires Undisturbed(handlers, subs, dup)
    ensures Led(handlers, subs, dup)
  {
  }

  lemma NothingAlike<S>(run: Slice<S>, s: S, dup: map<int, int>)
    ensures AlikeRuns(Alone(run, [], s), [], Alone(run, [], s), [], dup, 0)
  {
  }

  /** A run that stops is stopped by one of its leaves. */
  lemma {:induction false} AloneStopsWithin<S>(run: Slice<S>, leaves: seq<Leaf>, s: S)
    ensures Alone(run, leaves, s).Failed? ==> Alone(run, leaves, s).leaf < |leaves|
    decreases |leaves|
  {
    if leaves != [] {
      var first := Call(run, leaves[0].name, [leaves[0].input], s);
      if first.Done? { AloneStopsWithin(run, leaves[1..], first.state); }
    }
  }

  /** Stopped already, both stay so. */
  lemma StopsStill<S(!new)>(sys: System<S>, subs: seq<Sub>, dup: map<int, int>, s: S, n: nat)
    requires 0 < n <= |subs| && ExpandAll(sys, subs, map[], n).Leaves? && ExpandAll(sys, subs, dup, n).Leaves?
    requires ExpandAll(sys, subs, map[], n - 1).Leaves? && ExpandAll(sys, subs, dup, n - 1).Leaves?
    requires var plain, kept := ExpandAll(sys, subs, map[], n - 1).leaves, ExpandAll(sys, subs, dup, n - 1).leaves;
      StopAlike(Alone(sys.run, plain, s), plain, Alone(sys.run, kept, s), kept)
    ensures var plain, kept := ExpandAll(sys, subs, map[], n).leaves, ExpandAll(sys, subs, dup, n).leaves;
      StopAlike(Alone(sys.run, plain, s), plain, Alone(sys.run, kept, s), kept)
  {
    hide Alone, Call, Expand;
    var plain, kept := ExpandAll(sys, subs, map[], n - 1).leaves, ExpandAll(sys, subs, dup, n - 1).leaves;
    var x := Expand(sys, n - 1, subs[n - 1]);
    AloneAppend(sys.run, plain, x.leaves, s);
    if n - 1 !in dup { AloneAppend(sys.run, kept, x.leaves, s); }
  }

  /** A repeat of a read that worked works. */
  lemma WorksOnRepeat<S(!new)>(sys: System<S>, subs: seq<Sub>, dup: map<int, int>, s: S, n: nat)
    requires 0 < n <= |subs| && ValidDup(dup, |subs|) && Works(sys, subs, s, n - 1) && n - 1 in dup
    requires ReadsLeave(sys.handlers, sys.run) && Undisturbed(sys.handlers, subs, dup)
    ensures Works(sys, subs, s, n)
  {
    var l, plain := dup[n - 1], ExpandAll(sys, subs, map[], n - 1).leaves;
    assert Leads(sys.handlers, subs, l, n - 1) && OnlyReadsBetween(sys.handlers, subs, l, n - 1);
    UndisturbedLed(sys.handlers, subs, dup);
    RepeatExpands(sys, subs, dup, n - 1);
    hide Alone, Call, Expand, ReadsLeave, Undisturbed, Leads;
    var o := ReadAnswers(sys, subs, s, l, n - 1);
    var leaf := Leaf(n - 1, subs[n - 1].name, subs[n - 1].data, true);
    AloneAppend(sys.run, plain, [leaf], s);
    OneLeaf(sys.run, leaf, StateAt(sys, subs, s, n - 1));
  }

  /** A sub-request that runs in both stops both. */
  lemma LeaderStops<S(!new)>(sys: System<S>, subs: seq<Sub>, dup: map<int, int>, s: S, n: nat)
    requires 0 < n <= |subs| && Works(sys, subs, s, n - 1) && !Works(sys, subs, s, n) && n - 1 !in dup
    requires ExpandAll(sys, subs, map[], n).Leaves? && Alike(sys, subs, dup, s, n - 1)
    ensures var plain, kept := ExpandAll(sys, subs, map[], n).leaves, ExpandAll(sys, subs, dup, n).leaves;
      StopAlike(Alone(sys.run, plain, s), plain, Alone(sys.run, kept, s), kept)
  {
    hide Alone, Call, SameAnswer;
    var plain, kept := ExpandAll(sys, subs, map[], n - 1).leaves, ExpandAll(sys, subs, dup, n - 1).leaves;
    var more := Expand(sys, n - 1, subs[n - 1]).leaves;
    ExpandIsFor(sys, n - 1, subs[n - 1]);
    hide Expand;
    AloneAppend(sys.run, plain, more, s);
    AloneAppend(sys.run, kept, more, s);
    AloneStopsWithin(sys.run, more, StateAt(sys, subs, s, n - 1));
  }

  lemma ExpandIsFor<S>(sys: System<S>, outer: nat, sub: Sub)
    ensures var x := Expand(sys, outer, sub); x.Leaves? ==> forall k :: 0 <= k < |x.leaves| ==> x.leaves[k].outer == outer
  {
  }

  /** A sub-request that runs in both. */
  lemma LeaderAlike<S(!new)>(sys: System<S>, subs: seq<Sub>, dup: map<int, int>, s: S, n: nat)
    requires 0 < n <= |subs| && Works(sys, subs, s, n) && Works(sys, subs, s, n - 1) && ValidDup(dup, |subs|)
    requires Alike(sys, subs, dup, s, n - 1) && n - 1 !in dup
    ensures Alike(sys, subs, dup, s, n)
  {
    hide Alone, Call, Expand;
    WorksStep(sys, subs, s, n - 1);
    var plain, kept := ExpandAll(sys, subs, map[], n - 1).leaves, ExpandAll(sys, subs, dup, n - 1).leaves;
    var more := Expand(sys, n - 1, subs[n - 1]).leaves;
    var e, f := Alone(sys.run, plain, s), Alone(sys.run, kept, s);
    var g := Alone(sys.run, more, e.state);
    AloneAppend(sys.run, kept, more, s);
    AloneOuts(sys.run, more, e.state);
    ExpandAnswers(sys, n - 1, subs[n - 1], g.outs);
    forall i | 0 <= i < n ensures SameAnswer(plain + more, e.outs + g.outs, i, kept + more, f.outs + g.outs, Leader(dup, i)) {
      if i < n - 1 {
        assert SameAnswer(plain, e.outs, i, kept, f.outs, Leader(dup, i));
        var o :| Answered(plain, e.outs, i, o) && Answered(kept, f.outs, Leader(dup, i), o);
        AnsweredStill(plain, e.outs, more, g.outs, i, o);
        AnsweredStill(kept, f.outs, more, g.outs, Leader(dup, i), o);
      } else {
        var o :| Answered(more, g.outs, i, o);
        AnsweredNew(plain, e.outs, more, g.outs, i, o);
        AnsweredNew(kept, f.outs, more, g.outs, i, o);
      }
    }
    assert ExpandAll(sys, subs, dup, n).leaves == kept + more;
  }

  lemma ExpandAnswers<S>(sys: System<S>, outer: nat, sub: Sub, outs: seq<string>)
    requires Expand(sys, outer, sub).Leaves? && |outs| == |Expand(sys, outer, sub).leaves|
    ensures exists o :: Answered(Expand(sys, outer, sub).leaves, outs, outer, o)
  {
    hide Expand;
    var leaves := Expand(sys, outer, sub).leaves;
    assert AnswersFor(leaves, outer, |leaves| - 1);
    assert Answered(leaves, outs, outer, outs[|leaves| - 1]);
  }

  /** A repeat, run after all, is one more leaf, and answers what its leader did. */
  lemma RepeatRuns<S(!new)>(sys: System<S>, subs: seq<Sub>, dup: map<int, int>, s: S, n: nat) returns (p: string)
    requires 0 < n <= |subs| && Works(sys, subs, s, n) && Works(sys, subs, s, n - 1) && ValidDup(dup, |subs|) && n - 1 in dup
    requires ReadsLeave(sys.handlers, sys.run) && Undisturbed(sys.handlers, subs, dup)
    ensures var plain, leaf := ExpandAll(sys, subs, map[], n - 1).leaves, Leaf(n - 1, subs[n - 1].name, subs[n - 1].data, true);
      var e := Alone(sys.run, plain, s);
      && ExpandAll(sys, subs, map[], n).leaves == plain + [leaf]
      && Alone(sys.run, plain + [leaf], s) == Done(e.state, e.outs + [p])
      && |e.outs| == |plain| && Answered(plain, e.outs, dup[n - 1], p)
  {
    var l := dup[n - 1];
    assert Leads(sys.handlers, subs, l, n - 1) && OnlyReadsBetween(sys.handlers, subs, l, n - 1);
    hide Alone, Call, Expand, ExpandAll, ReadsLeave, Undisturbed, Leads, Answered;
    WorksStep(sys, subs, s, n - 1);
    AloneOuts(sys.run, ExpandAll(sys, subs, map[], n - 1).leaves, s);
    p := ReadStep(sys, subs, s, n - 1);
    var q := ReadAnswers(sys, subs, s, l, n - 1);
    assert p == q by { SameOut(p, q); }
  }

  /** A repeat, run in one and left out of the other. */
  lemma RepeatAlike<S(!new)>(sys: System<S>, subs: seq<Sub>, dup: map<int, int>, s: S, n: nat)
    requires 0 < n <= |subs| && Works(sys, subs, s, n) && Works(sys, subs, s, n - 1) && ValidDup(dup, |subs|)
    requires ReadsLeave(sys.handlers, sys.run) && Undisturbed(sys.handlers, subs, dup)
    requires Alike(sys, subs, dup, s, n - 1) && n - 1 in dup
    ensures Alike(sys, subs, dup, s, n)
  {
    KeptStays(sys, subs, dup, n);
    hide Alone, Call, Expand, ExpandAll, ReadsLeave, Undisturbed, Leads, Covers, AlikeRuns, Answered, Works, StateAt;
    var plain, kept := ExpandAll(sys, subs, map[], n - 1).leaves, ExpandAll(sys, subs, dup, n - 1).leaves;
    var p := RepeatRuns(sys, subs, dup, s, n);
    ExpandedCovers(sys, subs, map[], n - 1);
    var leaf := Leaf(n - 1, subs[n - 1].name, subs[n - 1].data, true);
    RepeatAdds(Alone(sys.run, plain, s), plain, Alone(sys.run, kept, s), kept, dup, n, leaf, p);
  }

  lemma KeptStays<S>(sys: System<S>, subs: seq<Sub>, dup: map<int, int>, n: nat)
    requires 0 < n <= |subs| && n - 1 in dup && ExpandAll(sys, subs, dup, n - 1).Leaves?
    ensures ExpandAll(sys, subs, dup, n) == ExpandAll(sys, subs, dup, n - 1)
  {
    hide Expand;
  }

  /** One more leaf in one run, answering what its leader's did. */
  lemma RepeatAdds<S>(e: Exec<S>, plain: seq<Leaf>, f: Exec<S>, kept: seq<Leaf>, dup: map<int, int>, n: nat, leaf: Leaf, p: string)
    requires n > 0 && n - 1 in dup && 0 <= dup[n - 1] < n - 1 && dup[n - 1] !in dup
    requires AlikeRuns(e, plain, f, kept, dup, n - 1) && leaf.outer == n - 1 && leaf.last
    requires Covers(plain, map[], n - 1) && Answered(plain, e.outs, dup[n - 1], p)
    ensures AlikeRuns(Done(e.state, e.outs + [p]), plain + [leaf], f, kept, dup, n)
  {
    hide Answered, Covers, AnswersFor;
    forall i | 0 <= i < n ensures SameAnswer(plain + [leaf], e.outs + [p], i, kept, f.outs, Leader(dup, i)) {
      var j := if i < n - 1 then i else dup[n - 1];
      assert SameAnswer(plain, e.outs, j, kept, f.outs, Leader(dup, j));
      var o :| Answered(plain, e.outs, j, o) && Answered(kept, f.outs, Leader(dup, j), o);
      if i < n - 1 {
        AnsweredStill(plain, e.outs, [leaf], [p], i, o);
      } else {
        AnsweredOnce(plain, e.outs, map[], n - 1, j, o, p);
        LeafAnswers(leaf, p);
        AnsweredNew(plain, e.outs, [leaf], [p], i, o);
      }
    }
  }

  lemma LeafAnswers(leaf: Leaf, p: string)
    requires leaf.last
    ensures Answered([leaf], [p], leaf.outer, p)
  {
    assert AnswersFor([leaf], leaf.outer, 0);
  }

  lemma SameOut(p: string, q: string)
    requires [p] == [q]
    ensures p == q
  {
    assert [p][0] == [q][0];
  }

  /** With no write between a read and its repeat, a batch is served with the
      shortcut exactly when it is without: in the same state, every slot alike.
      Otherwise the same sub-request is to blame for the same error, and the only
      slots that tell are the repeats of that one: they carry its error. */
  lemma DedupInvisible<S(!new)>(sys: System<S>, w: Weather, passes: seq<Pass>, subs: seq<Sub>, dup: map<int, int>, s: S, i: nat)
    requires i < |subs| && ValidDup(dup, |subs|) && LeafByLeaf(sys, passes) && OnceWrites(sys)
    requires ReadsLeave(sys.handlers, sys.run) && Undisturbed(sys.handlers, subs, dup)
    ensures var plain := Judge(sys, w, subs, map[], Alone(sys.run, LeavesOf(sys, subs, map[]), s));
      var kept := Judge(sys, w, subs, dup, Alone(sys.run, LeavesOf(sys, subs, dup), s));
      && Sound(subs, map[], plain) && Sound(subs, dup, kept)
      && (plain.Served? <==> kept.Served?)
      && (plain.Served? ==> kept.state == plain.state && Slots(subs, dup, kept)[i] == Slots(subs, map[], plain)[i])
      && (plain.Stopped? ==>
           && kept.offender == plain.offender && kept.error == plain.error
           && (Slots(subs, dup, kept)[i] == Slots(subs, map[], plain)[i] <==>
                !(i in dup && dup[i] == plain.offender) || plain.error == ABORTED))
  {
    hide Alone, StopsBefore, Sound, Slots, ReadsLeave, Undisturbed, OnceWrites, Led, ExpandAll, AlikeRuns, StopAlike;
    var e, f := Alone(sys.run, LeavesOf(sys, subs, map[]), s), Alone(sys.run, LeavesOf(sys, subs, dup), s);
    AloneOuts(sys.run, LeavesOf(sys, subs, map[]), s);
    AloneOuts(sys.run, LeavesOf(sys, subs, dup), s);
    JudgeIsSound(sys, w, subs, map[], e);
    JudgeIsSound(sys, w, subs, dup, f);
    UndisturbedLed(sys.handlers, subs, dup);
    SameStops(sys, w, passes, subs, dup);
    if ExpandAll(sys, subs, map[], |subs|).Leaves? { RunsAlike(sys, subs, dup, s, |subs|); }
    var plain, kept := Judge(sys, w, subs, map[], e), Judge(sys, w, subs, dup, f);
    SameVerdict(sys, w, subs, dup, e, f);
    if plain.Served? { ServedAlike(subs, dup, plain, kept, i); } else { StoppedAlike(subs, dup, plain, kept, i); }
  }

  lemma SameVerdict<S(!new)>(sys: System<S>, w: Weather, subs: seq<Sub>, dup: map<int, int>, e: Exec<S>, f: Exec<S>)
    requires var plain, kept := ExpandAll(sys, subs, map[], |subs|), ExpandAll(sys, subs, dup, |subs|);
      if plain.Refused? then kept == plain
      else kept.Leaves? && StopsBefore(sys, w, kept.leaves) == StopsBefore(sys, w, plain.leaves)
           && (AlikeRuns(e, plain.leaves, f, kept.leaves, dup, |subs|) || StopAlike(e, plain.leaves, f, kept.leaves))
    ensures var plain, kept := Judge(sys, w, subs, map[], e), Judge(sys, w, subs, dup, f);
      if plain.Stopped? then kept == plain
      else kept.Served? && AlikeRuns(Done(plain.state, plain.outs), plain.leaves, Done(kept.state, kept.outs), kept.leaves, dup, |subs|)
  {
    hide ExpandAll, StopsBefore, SameAnswer;
  }

  lemma ServedAlike<S>(subs: seq<Sub>, dup: map<int, int>, plain: Verdict<S>, kept: Verdict<S>, i: nat)
    requires ValidDup(dup, |subs|) && i < |subs| && plain.Served? && kept.Served?
    requires Sound(subs, map[], plain) && Sound(subs, dup, kept)
    requires AlikeRuns(Done(plain.state, plain.outs), plain.leaves, Done(kept.state, kept.outs), kept.leaves, dup, |subs|)
    ensures kept.state == plain.state && Slots(subs, dup, kept)[i] == Slots(subs, map[], plain)[i]
  {
    hide Sound, Slots;
    assert SameAnswer(plain.leaves, plain.outs, i, kept.leaves, kept.outs, Leader(dup, i));
    var o :| Answered(plain.leaves, plain.outs, i, o) && Answered(kept.leaves, kept.outs, Leader(dup, i), o);
    AllOrNothing(subs, map[], plain, i);
    AllOrNothing(subs, dup, kept, i);
  }

  lemma StoppedAlike<S>(subs: seq<Sub>, dup: map<int, int>, plain: Verdict<S>, kept: Verdict<S>, i: nat)
    requires ValidDup(dup, |subs|) && i < |subs| && plain.Stopped? && kept == plain
    requires Sound(subs, map[], plain) && Sound(subs, dup, kept)
    ensures Slots(subs, dup, kept)[i] == Slots(subs, map[], plain)[i] <==>
      !(i in dup && dup[i] == plain.offender) || plain.error == ABORTED
  {
    hide Slots;
    AllOrNothing(subs, map[], plain, i);
    AllOrNothing(subs, dup, kept, i);
  }
}
