/**
 The batch from request to responses: expansion, the checks before the
 transaction, the groups, and what each slot holds at the end.
 */
module DispatchBatch {
  import opened Prelude
  import opened Dedup
  import opened Dispatch

  /** What a server knows: its handlers and processes (steps in order), the
      per-leaf hooks (decode, authz), the handlers allowed once a batch, the
      role and scope pass over all leaves, and the slice calls. */
  datatype System<!S> = System(
    handlers: Registry,
    processes: map<Name, seq<Name>>,
    refuses: (Name, string) -> Option<Error>,
    onePerBatch: set<Name>,
    gate: seq<Leaf> -> Option<(nat, Error)>,
    run: Slice<S>)

  /** The transaction's own failures. */
  datatype Weather = Weather(begin: Option<Error>, commit: Option<Error>)

  datatype Expansion = Leaves(leaves: seq<Leaf>) | Refused(outer: nat, error: Error)

  // ------------------------------------------------------------------- expansion

  function Steps<S>(sys: System<S>, outer: nat, data: string, names: seq<Name>): Expansion {
    if names == [] then Leaves([])
    else
      match Steps(sys, outer, data, names[..|names| - 1])
      case Refused(o, e) => Refused(o, e)
      case Leaves(before) =>
        var name := names[|names| - 1];
        if name !in sys.handlers then Refused(outer, UNKNOWN_STEP)
        else if sys.refuses(name, data).Some? then Refused(outer, sys.refuses(name, data).value)
        else Leaves(before + [Leaf(outer, name, data, false)])
  }

  /** The last step's output is the answer. */
  function MarkLast(leaves: seq<Leaf>): seq<Leaf>
    requires leaves != []
  {
    leaves[|leaves| - 1 := leaves[|leaves| - 1].(last := true)]
  }

  lemma {:induction false} StepsShape<S>(sys: System<S>, outer: nat, data: string, names: seq<Name>)
    ensures var x := Steps(sys, outer, data, names);
      if x.Refused? then x.outer == outer
      else |x.leaves| == |names| && forall k :: 0 <= k < |x.leaves| ==> x.leaves[k] == Leaf(outer, names[k], data, false)
  {
    if names != [] { StepsShape(sys, outer, data, names[..|names| - 1]); }
  }

  function Expand<S>(sys: System<S>, outer: nat, sub: Sub): (x: Expansion)
    ensures x.Leaves? ==> x.leaves != []
    ensures x.Refused? ==> x.outer == outer
    ensures x.Leaves? ==> forall k :: 0 <= k < |x.leaves| ==>
      x.leaves[k].outer == outer && (x.leaves[k].last <==> k == |x.leaves| - 1)
  {
    if sub.name in sys.handlers then
      if sys.refuses(sub.name, sub.data).Some? then Refused(outer, sys.refuses(sub.name, sub.data).value)
      else Leaves([Leaf(outer, sub.name, sub.data, true)])
    else if sub.name !in sys.processes || sys.processes[sub.name] == [] then Refused(outer, UNKNOWN)
    else
      StepsShape(sys, outer, sub.data, sys.processes[sub.name]);
      match Steps(sys, outer, sub.data, sys.processes[sub.name])
      case Refused(o, e) => Refused(o, e)
      case Leaves(leaves) => Leaves(MarkLast(leaves))
  }

  /** The first n sub-requests, repeats left out. */
  function ExpandAll<S>(sys: System<S>, subs: seq<Sub>, dup: map<int, int>, n: nat): Expansion
    requires n <= |subs|
  {
    if n == 0 then Leaves([])
    else
      match ExpandAll(sys, subs, dup, n - 1)
      case Refused(o, e) => Refused(o, e)
      case Leaves(before) =>
        if n - 1 in dup then Leaves(before)
        else
          match Expand(sys, n - 1, subs[n - 1])
          case Refused(o, e) => Refused(o, e)
          case Leaves(more) => Leaves(before + more)
  }

  /** Leaves come in submission order, one last leaf for every sub-request run. */
  ghost predicate Covers(leaves: seq<Leaf>, dup: map<int, int>, n: nat) {
    && (forall k :: 0 <= k < |leaves| ==> leaves[k].outer < n && leaves[k].outer !in dup)
    && (forall j, k :: 0 <= j < k < |leaves| ==>
         leaves[j].outer <= leaves[k].outer && (leaves[j].last ==> leaves[j].outer < leaves[k].outer))
    && (forall i :: 0 <= i < n && i !in dup ==> HasLast(leaves, i))
  }

  ghost predicate HasLast(leaves: seq<Leaf>, i: int) {
    exists k :: 0 <= k < |leaves| && leaves[k].outer == i && leaves[k].last
  }

  lemma {:induction false} ExpandedCovers<S>(sys: System<S>, subs: seq<Sub>, dup: map<int, int>, n: nat)
    requires n <= |subs|
    ensures var x := ExpandAll(sys, subs, dup, n);
      if x.Leaves? then Covers(x.leaves, dup, n) else x.outer < n && x.outer !in dup
  {
    hide Covers, Expand;
    CoversNone(dup);
    if n > 0 {
      ExpandedCovers(sys, subs, dup, n - 1);
      var before := ExpandAll(sys, subs, dup, n - 1);
      if before.Leaves? && n - 1 !in dup && Expand(sys, n - 1, subs[n - 1]).Leaves? {
        CoversMore(before.leaves, Expand(sys, n - 1, subs[n - 1]).leaves, dup, n - 1);
      }
      if before.Leaves? && n - 1 in dup { CoversStay(before.leaves, dup, n - 1); }
    }
  }

  lemma CoversNone(dup: map<int, int>)
    ensures Covers([], dup, 0)
  {
  }

  lemma CoversStay(leaves: seq<Leaf>, dup: map<int, int>, n: nat)
    requires Covers(leaves, dup, n) && n in dup
    ensures Covers(leaves, dup, n + 1)
  {
  }

  lemma CoversMore(before: seq<Leaf>, more: seq<Leaf>, dup: map<int, int>, n: nat)
    requires Covers(before, dup, n) && n !in dup && more != []
    requires forall k :: 0 <= k < |more| ==> more[k].outer == n && (more[k].last <==> k == |more| - 1)
    ensures Covers(before + more, dup, n + 1)
  {
    var all := before + more;
    forall i | 0 <= i < n + 1 && i !in dup ensures HasLast(all, i) {
      if i < n {
        var k :| 0 <= k < |before| && before[k].outer == i && before[k].last;
        assert all[k] == before[k];
      } else {
        assert all[|all| - 1] == more[|more| - 1];
      }
    }
  }

  // ------------------------------------------------------------------- responses

  function Blanks(subs: seq<Sub>): seq<Response> {
    seq(|subs|, i requires 0 <= i < |subs| => Blank(subs[i].id))
  }

  function AbortAll(subs: seq<Sub>, offender: nat, error: Error): seq<Response> {
    seq(|subs|, i requires 0 <= i < |subs| => Bad(subs[i].id, if i == offender then error else ABORTED))
  }

  /** Each last leaf's output in its outer slot. */
  function Fill(subs: seq<Sub>, leaves: seq<Leaf>, outs: seq<string>, slots: seq<Response>): (r: seq<Response>)
    requires |outs| == |leaves| && |slots| == |subs| && forall k :: 0 <= k < |leaves| ==> leaves[k].outer < |subs|
    ensures |r| == |subs|
    decreases |leaves|
  {
    if leaves == [] then slots
    else
      var l := leaves[0];
      var next := if l.last then slots[l.outer := Ok(subs[l.outer].id, outs[0])] else slots;
      Fill(subs, leaves[1..], outs[1..], next)
  }

  function Named(r: Response, id: string): Response {
    match r
    case Blank(_) => Blank(id)
    case Ok(_, data) => Ok(id, data)
    case Bad(_, error) => Bad(id, error)
  }

  ghost predicate ValidDup(dup: map<int, int>, n: nat) {
    forall i :: i in dup ==> 0 <= i < n && 0 <= dup[i] < i && dup[i] !in dup
  }

  /** Every repeat gets its leader's response under its own id. */
  function Mirrored(subs: seq<Sub>, dup: map<int, int>, slots: seq<Response>): (r: seq<Response>)
    requires |slots| == |subs| && ValidDup(dup, |subs|)
    ensures |r| == |subs|
  {
    seq(|subs|, i requires 0 <= i < |subs| => if i in dup then Named(slots[dup[i]], subs[i].id) else slots[i])
  }

  /** How a batch ends: every leaf ran and committed, or one sub-request is to blame. */
  datatype Verdict<S> = Served(leaves: seq<Leaf>, outs: seq<string>, state: S) | Stopped(offender: nat, error: Error)

  function Extra(once: set<Name>, leaves: seq<Leaf>): Option<nat> {
    if leaves == [] then None
    else
      var init, last := leaves[..|leaves| - 1], leaves[|leaves| - 1];
      if Extra(once, init).Some? then Extra(once, init)
      else if last.name in once && exists k :: 0 <= k < |init| && init[k].name in once && init[k].outer != last.outer
      then Some(last.outer) else None
  }

  function GateRefusal<S>(sys: System<S>, leaves: seq<Leaf>): (r: Option<(nat, Error)>)
    ensures r.Some? ==> r.value.0 < |leaves|
  {
    var r := sys.gate(leaves);
    if r.Some? && r.value.0 < |leaves| then r else None
  }

  /** What stops the batch between expansion and the first group. */
  function StopsBefore<S>(sys: System<S>, w: Weather, leaves: seq<Leaf>): Option<(nat, Error)> {
    var extra, refusal := Extra(sys.onePerBatch, leaves), GateRefusal(sys, leaves);
    if extra.Some? then Some((extra.value, ONE_FILE))
    else if refusal.Some? then Some((leaves[refusal.value.0].outer, refusal.value.1))
    else if w.begin.Some? then Some((0, w.begin.value))
    else None
  }

  /** A verdict over the leaves, by grouped or by single execution. */
  function Judge<S>(sys: System<S>, w: Weather, subs: seq<Sub>, dup: map<int, int>, exec: Exec<S>): Verdict<S> {
    match ExpandAll(sys, subs, dup, |subs|)
    case Refused(o, e) => Stopped(o, e)
    case Leaves(leaves) => JudgeLeaves(sys, w, leaves, exec)
  }

  function JudgeLeaves<S>(sys: System<S>, w: Weather, leaves: seq<Leaf>, exec: Exec<S>): Verdict<S> {
    var before := StopsBefore(sys, w, leaves);
    if before.Some? then Stopped(before.value.0, before.value.1)
    else
      match exec
      case Failed(k, e) => Stopped(if k < |leaves| then leaves[k].outer else 0, e)
      case Done(state, outs) => if w.commit.Some? then Stopped(0, w.commit.value) else Served(leaves, outs, state)
  }

  function LeavesOf<S>(sys: System<S>, subs: seq<Sub>, dup: map<int, int>): seq<Leaf> {
    var x := ExpandAll(sys, subs, dup, |subs|);
    if x.Leaves? then x.leaves else []
  }

  /** An output a leaf and a leaf for every slot, or a sub-request that ran to blame. */
  ghost predicate Sound<S>(subs: seq<Sub>, dup: map<int, int>, v: Verdict<S>) {
    match v
    case Served(leaves, outs, _) => |outs| == |leaves| && Covers(leaves, dup, |subs|)
    case Stopped(offender, _) => offender < |subs| && offender !in dup
  }

  function Slots<S>(subs: seq<Sub>, dup: map<int, int>, v: Verdict<S>): (r: seq<Response>)
    requires ValidDup(dup, |subs|) && Sound(subs, dup, v)
    ensures |r| == |subs|
  {
    Mirrored(subs, dup, match v
                        case Served(leaves, outs, _) => Fill(subs, leaves, outs, Blanks(subs))
                        case Stopped(offender, error) => AbortAll(subs, offender, error))
  }

  // -------------------------------------------------------------------- theorems

  lemma {:induction false} FillKeeps(subs: seq<Sub>, leaves: seq<Leaf>, outs: seq<string>, slots: seq<Response>, i: nat)
    requires |outs| == |leaves| && |slots| == |subs| && forall k :: 0 <= k < |leaves| ==> leaves[k].outer < |subs|
    requires i < |subs| && forall k :: 0 <= k < |leaves| && leaves[k].last ==> leaves[k].outer != i
    ensures Fill(subs, leaves, outs, slots)[i] == slots[i]
    decreases |leaves|
  {
    if leaves != [] {
      var l := leaves[0];
      var next := if l.last then slots[l.outer := Ok(subs[l.outer].id, outs[0])] else slots;
      FillKeeps(subs, leaves[1..], outs[1..], next, i);
    }
  }

  /** A slot holds the output of its sub-request's last leaf. */
  lemma {:induction false} FillAt(subs: seq<Sub>, leaves: seq<Leaf>, outs: seq<string>, slots: seq<Response>, k: nat)
    requires |outs| == |leaves| && |slots| == |subs| && forall j :: 0 <= j < |leaves| ==> leaves[j].outer < |subs|
    requires k < |leaves| && leaves[k].last
    requires forall j :: k < j < |leaves| ==> leaves[j].outer != leaves[k].outer
    ensures Fill(subs, leaves, outs, slots)[leaves[k].outer] == Ok(subs[leaves[k].outer].id, outs[k])
    decreases |leaves|
  {
    var l := leaves[0];
    var next := if l.last then slots[l.outer := Ok(subs[l.outer].id, outs[0])] else slots;
    if k == 0 {
      forall j | 0 <= j < |leaves[1..]| ensures leaves[1..][j].outer != l.outer { assert leaves[1..][j] == leaves[j + 1]; }
      FillKeeps(subs, leaves[1..], outs[1..], next, l.outer);
    } else {
      FillAt(subs, leaves[1..], outs[1..], next, k - 1);
    }
  }

  /** Which sub-request answers for slot i. */
  function Leader(dup: map<int, int>, i: int): int {
    if i in dup then dup[i] else i
  }

  predicate IsOuter(leaves: seq<Leaf>, o: nat) {
    exists k :: 0 <= k < |leaves| && leaves[k].outer == o
  }

  lemma OuterLeads(leaves: seq<Leaf>, dup: map<int, int>, n: nat, o: nat)
    requires Covers(leaves, dup, n) && IsOuter(leaves, o)
    ensures o < n && o !in dup
  {
  }

  lemma StopsAtALeaf<S>(sys: System<S>, w: Weather, leaves: seq<Leaf>)
    ensures var before := StopsBefore(sys, w, leaves);
      before.Some? ==> before.value.0 == 0 || IsOuter(leaves, before.value.0)
  {
    ExtraIsALeaf(sys.onePerBatch, leaves);
    hide Extra;
  }

  lemma JudgeIsSound<S>(sys: System<S>, w: Weather, subs: seq<Sub>, dup: map<int, int>, exec: Exec<S>)
    requires ValidDup(dup, |subs|) && |subs| > 0
    requires exec.Done? ==> |exec.outs| == |LeavesOf(sys, subs, dup)|
    ensures Sound(subs, dup, Judge(sys, w, subs, dup, exec))
  {
    ExpandedCovers(sys, subs, dup, |subs|);
    ZeroLeads(dup, |subs|);
    var x := ExpandAll(sys, subs, dup, |subs|);
    hide Covers, StopsBefore, IsOuter, ExpandAll;
    if x.Leaves? {
      StopsAtALeaf(sys, w, x.leaves);
      var v := JudgeLeaves(sys, w, x.leaves, exec);
      if v.Stopped? && v.offender != 0 {
        AtALeaf(sys, w, x.leaves, exec);
        OuterLeads(x.leaves, dup, |subs|, v.offender);
      }
    }
  }

  lemma AtALeaf<S>(sys: System<S>, w: Weather, leaves: seq<Leaf>, exec: Exec<S>)
    ensures var v := JudgeLeaves(sys, w, leaves, exec); v.Stopped? ==> v.offender == 0 || IsOuter(leaves, v.offender)
  {
    StopsAtALeaf(sys, w, leaves);
    hide StopsBefore;
  }

  /** Success: every slot is OK under its own id, with what its (or its
      leader's) last leaf put out.  Failure: the offender, a sub-request that
      ran, and its repeats carry the error, and every other slot is aborted. */
  lemma AllOrNothing<S>(subs: seq<Sub>, dup: map<int, int>, v: Verdict<S>, i: nat)
    requires ValidDup(dup, |subs|) && Sound(subs, dup, v) && i < |subs|
    ensures v.Served? ==> exists k :: AnswersFor(v.leaves, Leader(dup, i), k)
    ensures v.Served? ==>
      forall k :: AnswersFor(v.leaves, Leader(dup, i), k) ==> Slots(subs, dup, v)[i] == Ok(subs[i].id, v.outs[k])
    ensures v.Stopped? ==> Leader(dup, v.offender) == v.offender
    ensures v.Stopped? ==> Slots(subs, dup, v)[i] == Bad(subs[i].id, if Leader(dup, i) == v.offender then v.error else ABORTED)
  {
    if v.Served? { ServedSlot(subs, dup, v, i); }
  }

  ghost predicate AnswersFor(leaves: seq<Leaf>, i: int, k: int) {
    0 <= k < |leaves| && leaves[k].outer == i && leaves[k].last
  }

  lemma ServedSlot<S>(subs: seq<Sub>, dup: map<int, int>, v: Verdict<S>, i: nat)
    requires ValidDup(dup, |subs|) && i < |subs| && v.Served? && Sound(subs, dup, v)
    ensures exists k :: AnswersFor(v.leaves, Leader(dup, i), k)
    ensures forall k :: AnswersFor(v.leaves, Leader(dup, i), k) ==> Slots(subs, dup, v)[i] == Ok(subs[i].id, v.outs[k])
  {
    var l := Leader(dup, i);
    assert HasLast(v.leaves, l);
    var k :| 0 <= k < |v.leaves| && v.leaves[k].outer == l && v.leaves[k].last;
    assert AnswersFor(v.leaves, l, k);
    forall k | AnswersFor(v.leaves, l, k) ensures Slots(subs, dup, v)[i] == Ok(subs[i].id, v.outs[k]) {
      FillAt(subs, v.leaves, v.outs, Blanks(subs), k);
    }
  }

  lemma ZeroLeads(dup: map<int, int>, n: nat)
    requires ValidDup(dup, n)
    ensures 0 !in dup
  {
  }

  lemma {:induction false} ExtraIsALeaf(once: set<Name>, leaves: seq<Leaf>)
    ensures Extra(once, leaves).Some? ==> IsOuter(leaves, Extra(once, leaves).value)
  {
    if leaves != [] {
      var init := leaves[..|leaves| - 1];
      ExtraIsALeaf(once, init);
      if Extra(once, init).Some? {
        var k :| 0 <= k < |init| && init[k].outer == Extra(once, init).value;
        assert leaves[k] == init[k];
      }
      assert leaves[|init|].outer == leaves[|leaves| - 1].outer;
    }
  }

  /** The batch run group by group is the batch run leaf by leaf. */
  lemma DispatchRefines<S(!new)>(sys: System<S>, w: Weather, subs: seq<Sub>, dup: map<int, int>, s: S)
    requires IsFold(sys.run)
    ensures var leaves := LeavesOf(sys, subs, dup);
      Judge(sys, w, subs, dup, Grouped(sys.run, leaves, s)) == Judge(sys, w, subs, dup, Alone(sys.run, leaves, s))
  {
    GroupingRefines(sys.run, LeavesOf(sys, subs, dup), s);
  }

  // ----------------------------------------------------------- what stops a batch

  /** What a sub-request asks for: its handler, or its process's steps. */
  function StepNames<S>(sys: System<S>, sub: Sub): seq<Name> {
    if sub.name in sys.handlers then [sub.name] else if sub.name in sys.processes then sys.processes[sub.name] else []
  }

  predicate BadStep<S>(sys: System<S>, sub: Sub, k: nat) {
    k < |StepNames(sys, sub)| &&
    (StepNames(sys, sub)[k] !in sys.handlers || sys.refuses(StepNames(sys, sub)[k], sub.data).Some?)
  }

  /** Every step is known, and its hooks let the data through. */
  ghost predicate Runnable<S>(sys: System<S>, sub: Sub) {
    StepNames(sys, sub) != [] && forall k: nat :: !BadStep(sys, sub, k)
  }

  /** Nothing by that name; or the first bad step is unknown, or refuses. */
  ghost predicate FailsWith<S>(sys: System<S>, sub: Sub, e: Error) {
    || (StepNames(sys, sub) == [] && e == UNKNOWN)
    || (exists k: nat :: BadStep(sys, sub, k) && (forall j: nat :: j < k ==> !BadStep(sys, sub, j)) &&
         e == if StepNames(sys, sub)[k] !in sys.handlers then UNKNOWN_STEP
              else sys.refuses(StepNames(sys, sub)[k], sub.data).value)
  }

  lemma {:induction false} StepsTell<S>(sys: System<S>, outer: nat, data: string, names: seq<Name>)
    ensures var x := Steps(sys, outer, data, names);
      && (x.Leaves? <==> forall k :: 0 <= k < |names| ==> names[k] in sys.handlers && sys.refuses(names[k], data).None?)
      && (x.Refused? ==> exists k :: 0 <= k < |names| && StopsAt(sys, data, names, k, x.error))
  {
    if names != [] {
      var init := names[..|names| - 1];
      StepsTell(sys, outer, data, init);
      var x := Steps(sys, outer, data, init);
      if x.Refused? {
        var k :| 0 <= k < |init| && StopsAt(sys, data, init, k, x.error);
        assert StopsAt(sys, data, names, k, x.error);
      } else if Steps(sys, outer, data, names).Refused? {
        assert StopsAt(sys, data, names, |init|, Steps(sys, outer, data, names).error);
      }
    }
  }

  ghost predicate StopsAt<S>(sys: System<S>, data: string, names: seq<Name>, k: int, e: Error)
    requires 0 <= k < |names|
  {
    && (forall j :: 0 <= j < k ==> names[j] in sys.handlers && sys.refuses(names[j], data).None?)
    && (if names[k] !in sys.handlers then e == UNKNOWN_STEP else sys.refuses(names[k], data) == Some(e))
  }

  /** A sub-request becomes its steps in order, the last marked, if and only if
      every one can run; otherwise it fails as the first that cannot. */
  lemma ExpandTells<S>(sys: System<S>, outer: nat, sub: Sub)
    ensures var x := Expand(sys, outer, sub);
      && (x.Leaves? <==> Runnable(sys, sub))
      && (x.Refused? ==> x.outer == outer && FailsWith(sys, sub, x.error))
      && (x.Leaves? ==> LeavesOfOne(sys, outer, sub, x.leaves))
  {
    var names := StepNames(sys, sub);
    if sub.name in sys.handlers {
      assert BadStep(sys, sub, 0) <==> sys.refuses(sub.name, sub.data).Some?;
    } else if names != [] {
      StepsTell(sys, outer, sub.data, names);
      StepsShape(sys, outer, sub.data, names);
      forall k: nat | k < |names| ensures BadStep(sys, sub, k) <==> !(names[k] in sys.handlers && sys.refuses(names[k], sub.data).None?) {
      }
      var x := Expand(sys, outer, sub);
      if x.Refused? {
        var k :| 0 <= k < |names| && StopsAt(sys, sub.data, names, k, x.error);
        assert BadStep(sys, sub, k);
      }
    }
  }

  ghost predicate LeavesOfOne<S>(sys: System<S>, outer: nat, sub: Sub, leaves: seq<Leaf>) {
    && |leaves| == |StepNames(sys, sub)|
    && forall k :: 0 <= k < |leaves| ==> leaves[k] == Leaf(outer, StepNames(sys, sub)[k], sub.data, k == |leaves| - 1)
  }

  /** The sub-requests before the i-th can run, and the i-th cannot. */
  ghost predicate FirstToFail<S>(sys: System<S>, subs: seq<Sub>, dup: map<int, int>, n: nat, i: nat) {
    && i < n <= |subs| && i !in dup && !Runnable(sys, subs[i])
    && forall j :: 0 <= j < i && j !in dup ==> Runnable(sys, subs[j])
  }

  lemma {:induction false} ExpandAllTells<S>(sys: System<S>, subs: seq<Sub>, dup: map<int, int>, n: nat)
    requires n <= |subs|
    ensures var x := ExpandAll(sys, subs, dup, n);
      && (x.Leaves? <==> forall i :: 0 <= i < n && i !in dup ==> Runnable(sys, subs[i]))
      && (x.Refused? ==> FirstToFail(sys, subs, dup, n, x.outer) && FailsWith(sys, subs[x.outer], x.error))
      && (x.Leaves? ==> forall k :: 0 <= k < |x.leaves| ==> x.leaves[k].outer < n && LeafFits(sys, subs, x.leaves[k]))
  {
    hide Expand, Runnable, FailsWith;
    if n > 0 {
      ExpandAllTells(sys, subs, dup, n - 1);
      ExpandTells(sys, n - 1, subs[n - 1]);
    }
  }

  /** From `at` on come all of sub-request i's steps, in order, and none elsewhere. */
  ghost predicate StepsAt<S>(sys: System<S>, subs: seq<Sub>, leaves: seq<Leaf>, i: nat, at: nat)
    requires i < |subs|
  {
    && at + |StepNames(sys, subs[i])| <= |leaves|
    && LeavesOfOne(sys, i, subs[i], leaves[at..at + |StepNames(sys, subs[i])|])
    && forall m :: 0 <= m < |leaves| && leaves[m].outer == i ==> at <= m < at + |StepNames(sys, subs[i])|
  }

  /** Each sub-request that runs gives all its steps, together and in order. */
  lemma {:induction false} EveryStep<S>(sys: System<S>, subs: seq<Sub>, dup: map<int, int>, n: nat, i: nat) returns (at: nat)
    requires i < n <= |subs| && i !in dup && ExpandAll(sys, subs, dup, n).Leaves?
    ensures StepsAt(sys, subs, ExpandAll(sys, subs, dup, n).leaves, i, at)
  {
    hide ExpandAll, Expand, StepsAt, LeavesOfOne, Runnable, FailsWith;
    ExpandsOn(sys, subs, dup, n);
    var before := ExpandAll(sys, subs, dup, n - 1).leaves;
    if n - 1 !in dup { ExpandTells(sys, n - 1, subs[n - 1]); }
    if i == n - 1 {
      at := |before|;
      NoneYet(sys, subs, dup, n - 1);
      LastSteps(sys, subs, before, Expand(sys, i, subs[i]).leaves, i);
    } else {
      at := EveryStep(sys, subs, dup, n - 1, i);
      if n - 1 !in dup { MoreAfter(sys, subs, before, Expand(sys, n - 1, subs[n - 1]).leaves, i, at); }
    }
  }

  lemma ExpandsOn<S>(sys: System<S>, subs: seq<Sub>, dup: map<int, int>, n: nat)
    requires 0 < n <= |subs| && ExpandAll(sys, subs, dup, n).Leaves?
    ensures var before, more := ExpandAll(sys, subs, dup, n - 1), Expand(sys, n - 1, subs[n - 1]);
      && before.Leaves? && (n - 1 !in dup ==> more.Leaves?)
      && ExpandAll(sys, subs, dup, n).leaves == if n - 1 in dup then before.leaves else before.leaves + more.leaves
  {
    hide Expand;
  }

  lemma LastSteps<S>(sys: System<S>, subs: seq<Sub>, before: seq<Leaf>, more: seq<Leaf>, i: nat)
    requires i < |subs| && LeavesOfOne(sys, i, subs[i], more) && forall m :: 0 <= m < |before| ==> before[m].outer < i
    ensures StepsAt(sys, subs, before + more, i, |before|)
  {
    assert (before + more)[|before|..|before| + |more|] == more;
  }

  lemma NoneYet<S>(sys: System<S>, subs: seq<Sub>, dup: map<int, int>, n: nat)
    requires n <= |subs| && ExpandAll(sys, subs, dup, n).Leaves?
    ensures var leaves := ExpandAll(sys, subs, dup, n).leaves; forall m :: 0 <= m < |leaves| ==> leaves[m].outer < n
  {
    hide ExpandAll;
    ExpandAllTells(sys, subs, dup, n);
  }

  lemma MoreAfter<S>(sys: System<S>, subs: seq<Sub>, leaves: seq<Leaf>, more: seq<Leaf>, i: nat, at: nat)
    requires i < |subs| && StepsAt(sys, subs, leaves, i, at) && forall m :: 0 <= m < |more| ==> more[m].outer != i
    ensures StepsAt(sys, subs, leaves + more, i, at)
  {
    var n := |StepNames(sys, subs[i])|;
    assert (leaves + more)[at..at + n] == leaves[at..at + n];
  }

  /** The leaf is one of its sub-request's steps, known and let through. */
  ghost predicate LeafFits<S>(sys: System<S>, subs: seq<Sub>, leaf: Leaf) {
    leaf.outer < |subs| && leaf.input == subs[leaf.outer].data && leaf.name in StepNames(sys, subs[leaf.outer])
  }

  /** A leaf allowed once a batch, after one of another sub-request. */
  predicate SecondOnce<S>(sys: System<S>, leaves: seq<Leaf>, k: nat) {
    k < |leaves| && leaves[k].name in sys.onePerBatch && Other(sys.onePerBatch, leaves, k)
  }

  lemma {:induction false} ExtraTells<S>(sys: System<S>, leaves: seq<Leaf>)
    ensures Extra(sys.onePerBatch, leaves).None? <==> forall k: nat :: !SecondOnce(sys, leaves, k)
    ensures Extra(sys.onePerBatch, leaves).Some? ==> exists k: nat ::
      SecondOnce(sys, leaves, k) && (forall j: nat :: j < k ==> !SecondOnce(sys, leaves, j)) &&
      Extra(sys.onePerBatch, leaves).value == leaves[k].outer
  {
    if leaves != [] {
      var init := leaves[..|leaves| - 1];
      ExtraTells(sys, init);
      forall k: nat | k < |init| ensures SecondOnce(sys, init, k) <==> SecondOnce(sys, leaves, k) {
        assert init[k] == leaves[k];
        if SecondOnce(sys, leaves, k) {
          var j :| 0 <= j < k && leaves[j].name in sys.onePerBatch && leaves[j].outer != leaves[k].outer;
          assert init[j] == leaves[j];
        }
        if SecondOnce(sys, init, k) {
          var j :| 0 <= j < k && init[j].name in sys.onePerBatch && init[j].outer != init[k].outer;
          assert init[j] == leaves[j];
        }
      }
      LastOnce(sys, leaves);
    }
  }

  lemma LastOnce<S>(sys: System<S>, leaves: seq<Leaf>)
    requires leaves != []
    ensures var init, last := leaves[..|leaves| - 1], leaves[|leaves| - 1];
      SecondOnce(sys, leaves, |init|) <==>
        last.name in sys.onePerBatch && exists k :: 0 <= k < |init| && init[k].name in sys.onePerBatch && init[k].outer != last.outer
  {
    var init, last := leaves[..|leaves| - 1], leaves[|leaves| - 1];
    if k :| 0 <= k < |init| && leaves[k].name in sys.onePerBatch && leaves[k].outer != last.outer { assert init[k] == leaves[k]; }
    if k :| 0 <= k < |init| && init[k].name in sys.onePerBatch && init[k].outer != last.outer { assert init[k] == leaves[k]; }
  }

  /** Sub-request o is to blame, with e: the first that cannot run; else the first
      once-a-batch leaf too many; else the leaf the gate refuses; else a
      transaction that does not begin; else the leaf that failed; else the commit. */
  ghost predicate ToBlame<S>(sys: System<S>, w: Weather, subs: seq<Sub>, dup: map<int, int>, leaves: seq<Leaf>, exec: Exec<S>,
                             o: nat, e: Error) {
    if !(forall i :: 0 <= i < |subs| && i !in dup ==> Runnable(sys, subs[i])) then
      FirstToFail(sys, subs, dup, |subs|, o) && FailsWith(sys, subs[o], e)
    else if !(forall k: nat :: !SecondOnce(sys, leaves, k)) then
      e == ONE_FILE && exists k: nat ::
        SecondOnce(sys, leaves, k) && (forall j: nat :: j < k ==> !SecondOnce(sys, leaves, j)) && o == leaves[k].outer
    else if sys.gate(leaves).Some? && sys.gate(leaves).value.0 < |leaves| then
      o == leaves[sys.gate(leaves).value.0].outer && e == sys.gate(leaves).value.1
    else if w.begin.Some? then o == 0 && e == w.begin.value
    else if exec.Failed? then exec.leaf < |leaves| && o == leaves[exec.leaf].outer && e == exec.error
    else w.commit.Some? && o == 0 && e == w.commit.value
  }

  /** Everything a batch must come through to be served. */
  ghost predicate ComesThrough<S>(sys: System<S>, w: Weather, subs: seq<Sub>, dup: map<int, int>, leaves: seq<Leaf>,
                                  exec: Exec<S>) {
    && (forall i :: 0 <= i < |subs| && i !in dup ==> Runnable(sys, subs[i]))
    && (forall k: nat :: !SecondOnce(sys, leaves, k))
    && (sys.gate(leaves).Some? ==> sys.gate(leaves).value.0 >= |leaves|)
    && w.begin.None? && exec.Done? && w.commit.None?
    && forall k :: 0 <= k < |leaves| ==>
         leaves[k].name in sys.handlers && sys.refuses(leaves[k].name, leaves[k].input).None?
  }

  lemma FitsRuns<S>(sys: System<S>, subs: seq<Sub>, leaf: Leaf)
    requires LeafFits(sys, subs, leaf) && Runnable(sys, subs[leaf.outer])
    ensures leaf.name in sys.handlers && sys.refuses(leaf.name, leaf.input).None?
  {
    var k :| 0 <= k < |StepNames(sys, subs[leaf.outer])| && StepNames(sys, subs[leaf.outer])[k] == leaf.name;
    assert !BadStep(sys, subs[leaf.outer], k);
  }

  /** A batch is served if and only if it comes through everything, and what it
      put out is what its leaves did; stopped, the right one is to blame. */
  lemma VerdictTells<S>(sys: System<S>, w: Weather, subs: seq<Sub>, dup: map<int, int>, exec: Exec<S>)
    requires exec.Failed? ==> LeavesOf(sys, subs, dup) == [] || exec.leaf < |LeavesOf(sys, subs, dup)|
    requires exists i :: 0 <= i < |subs| && i !in dup
    ensures var v, leaves := Judge(sys, w, subs, dup, exec), LeavesOf(sys, subs, dup);
      && (v.Served? <==> ComesThrough(sys, w, subs, dup, leaves, exec))
      && (v.Served? ==> exec.Done? && v == Served(leaves, exec.outs, exec.state))
      && (v.Stopped? ==> ToBlame(sys, w, subs, dup, leaves, exec, v.offender, v.error))
  {
    hide ExpandAll, Runnable, FailsWith, SecondOnce, LeafFits, Extra, Covers;
    ExpandAllTells(sys, subs, dup, |subs|);
    ExpandedCovers(sys, subs, dup, |subs|);
    var leaves := LeavesOf(sys, subs, dup);
    ExtraTells(sys, leaves);
    if ExpandAll(sys, subs, dup, |subs|).Leaves? {
      forall k | 0 <= k < |leaves| ensures leaves[k].name in sys.handlers && sys.refuses(leaves[k].name, leaves[k].input).None? {
        assert LeafFits(sys, subs, leaves[k]);
        CoversOuter(leaves, dup, |subs|, k);
        FitsRuns(sys, subs, leaves[k]);
      }
      NotEmpty(leaves, dup, |subs|);
    }
  }

  lemma CoversOuter(leaves: seq<Leaf>, dup: map<int, int>, n: nat, k: nat)
    requires Covers(leaves, dup, n) && k < |leaves|
    ensures leaves[k].outer < n && leaves[k].outer !in dup
  {
  }

  lemma NotEmpty(leaves: seq<Leaf>, dup: map<int, int>, n: nat)
    requires Covers(leaves, dup, n) && exists i :: 0 <= i < n && i !in dup
    ensures leaves != []
  {
    var i :| 0 <= i < n && i !in dup;
    assert HasLast(leaves, i);
  }

  // ------------------------------------------------------------- the dispatcher

  class Dispatcher<S(!new)> {
    const sys: System<S>
    var db: S
    var slots: array<Response>

    constructor (sys: System<S>, db: S)
      ensures this.sys == sys && this.db == db && fresh(slots)
    {
      this.sys, this.db := sys, db;
      slots := new Response[0];
    }

    /** abortAllWithDetail: every slot, filled or not, is overwritten. */
    method Abort(subs: seq<Sub>, offender: nat, error: Error)
      requires slots.Length == |subs| && forall i :: 0 <= i < |subs| ==> slots[i].id == subs[i].id
      modifies slots
      ensures slots[..] == AbortAll(subs, offender, error)
    {
      for i := 0 to slots.Length
        invariant forall j :: 0 <= j < i ==> slots[j] == Bad(subs[j].id, if j == offender then error else ABORTED)
        invariant forall j :: i <= j < |subs| ==> slots[j].id == subs[j].id
      {
        slots[i] := Bad(slots[i].id, if i == offender then error else ABORTED);
      }
    }

    /** expandSubrequest. */
    method ExpandOne(outer: nat, sub: Sub) returns (x: Expansion)
      ensures x == Expand(sys, outer, sub)
      ensures x.Leaves? <==> Runnable(sys, sub)
      ensures if x.Leaves? then LeavesOfOne(sys, outer, sub, x.leaves) else x.outer == outer && FailsWith(sys, sub, x.error)
    {
      ExpandTells(sys, outer, sub);
      hide Runnable, FailsWith, LeavesOfOne;
      if sub.name in sys.handlers {
        var refused := sys.refuses(sub.name, sub.data);
        return if refused.Some? then Refused(outer, refused.value) else Leaves([Leaf(outer, sub.name, sub.data, true)]);
      }
      if sub.name !in sys.processes || |sys.processes[sub.name]| == 0 { return Refused(outer, UNKNOWN); }
      var steps, out := sys.processes[sub.name], [];
      for k := 0 to |steps|
        invariant |out| == k
        invariant k < |steps| ==> Steps(sys, outer, sub.data, steps[..k]) == Leaves(out)
        invariant k == |steps| ==> out != [] && Expand(sys, outer, sub) == Leaves(out)
      {
        StepsFrom(sys, outer, sub.data, steps, k);
        assert steps[..k + 1][..k] == steps[..k] && steps[..|steps|] == steps;
        if steps[k] !in sys.handlers { return Refused(outer, UNKNOWN_STEP); }
        var refused := sys.refuses(steps[k], sub.data);
        if refused.Some? { return Refused(outer, refused.value); }
        out := out + [Leaf(outer, steps[k], sub.data, k == |steps| - 1)];
      }
      return Leaves(out);
    }

    /** Pass 1: expand everything that is no repeat. */
    method ExpandBatch(subs: seq<Sub>, dup: map<int, int>) returns (x: Expansion)
      ensures x == ExpandAll(sys, subs, dup, |subs|)
    {
      var leaves := [];
      for i := 0 to |subs|
        invariant ExpandAll(sys, subs, dup, i) == Leaves(leaves)
      {
        if i !in dup {
          x := ExpandOne(i, subs[i]);
          if x.Refused? {
            RefusedStays(sys, subs, dup, i + 1);
            return;
          }
          leaves := leaves + x.leaves;
        }
      }
      return Leaves(leaves);
    }

    /** Pass 1.25: a second sub-request of a once-a-batch handler. */
    method FindExtra(leaves: seq<Leaf>) returns (extra: Option<nat>)
      ensures extra == Extra(sys.onePerBatch, leaves)
      ensures extra.None? <==> forall k: nat :: !SecondOnce(sys, leaves, k)
      ensures extra.Some? ==> exists k: nat ::
        SecondOnce(sys, leaves, k) && extra == Some(leaves[k].outer) && forall j: nat :: j < k ==> !SecondOnce(sys, leaves, j)
    {
      ExtraTells(sys, leaves);
      hide SecondOnce;
      var first: int := -1;
      for i := 0 to |leaves|
        invariant Extra(sys.onePerBatch, leaves[..i]) == None
        invariant -1 <= first
        invariant first >= 0 ==> exists k :: 0 <= k < i && leaves[k].name in sys.onePerBatch
        invariant forall k :: 0 <= k < i && leaves[k].name in sys.onePerBatch ==> leaves[k].outer == first
      {
        var p := leaves[i];
        ExtraStep(sys.onePerBatch, leaves, i);
        if p.name !in sys.onePerBatch { continue; }
        if first >= 0 && p.outer != first {
          return Some(p.outer);
        }
        first := p.outer;
      }
      assert leaves[..|leaves|] == leaves;
      return None;
    }

    /** One slice call over a group; a failure aborts every slot. */
    method Flush(subs: seq<Sub>, group: seq<Leaf>) returns (err: bool, ghost e: Exec<S>)
      requires group != [] && SameName(group) && slots.Length == |subs|
      requires forall i :: 0 <= i < |subs| ==> slots[i].id == subs[i].id
      requires forall k :: 0 <= k < |group| ==> group[k].outer < |subs|
      modifies `db, slots
      ensures e == Call(sys.run, group[0].name, Inputs(group), old(db)) && (err <==> e.Failed?)
      ensures e.Done? ==> db == e.state && slots[..] == Fill(subs, group, e.outs, old(slots[..]))
      ensures e.Failed? ==> db == old(db) && slots[..] == AbortAll(subs, group[e.leaf].outer, e.error)
      ensures match sys.run(group[0].name, Inputs(group), old(db))
        case Ran(state, outs) => if |outs| == |group| then e == Done(state, outs) else e == Failed(0, PROTOCOL)
        case RunFailed(index, error) => e == Failed(if 0 <= index < |group| then index else 0, error)
    {
      var ins := Inputs(group);
      e := Call(sys.run, group[0].name, ins, db);
      match sys.run(group[0].name, ins, db) {
        case RunFailed(index, error) =>
          var offender := group[0].outer;
          if 0 <= index < |group| { offender := group[index].outer; }
          Abort(subs, offender, error);
          return true, e;
        case Ran(state, outs) =>
          if |outs| != |group| {
            Abort(subs, group[0].outer, PROTOCOL);
            return true, e;
          }
          db := state;
          FillSlots(subs, group, outs);
          return false, e;
      }
    }

    method FillSlots(subs: seq<Sub>, group: seq<Leaf>, outs: seq<string>)
      requires slots.Length == |subs| && |outs| == |group|
      requires forall k :: 0 <= k < |group| ==> group[k].outer < |subs|
      modifies slots
      ensures slots[..] == Fill(subs, group, outs, old(slots[..]))
    {
      ghost var start := slots[..];
      for i := 0 to |group|
        invariant slots[..] == Fill(subs, group[..i], outs[..i], start)
      {
        FillSnoc(subs, group, outs, i, start);
        if !group[i].last { continue; }
        slots[group[i].outer] := Ok(subs[group[i].outer].id, outs[i]);
      }
      assert group[..|group|] == group && outs[..|group|] == outs;
    }

    /** The leaves, adjacent ones of a handler together. */
    method RunGroups(subs: seq<Sub>, leaves: seq<Leaf>) returns (err: bool, ghost e: Exec<S>)
      requires slots.Length == |subs| && slots[..] == Blanks(subs)
      requires leaves != [] && forall k :: 0 <= k < |leaves| ==> leaves[k].outer < |subs|
      modifies `db, slots
      ensures e == Grouped(sys.run, leaves, old(db)) && (err <==> e.Failed?)
      ensures e.Done? ==> |e.outs| == |leaves| && db == e.state && slots[..] == Fill(subs, leaves, e.outs, Blanks(subs))
      ensures e.Failed? ==> e.leaf < |leaves| && slots[..] == AbortAll(subs, leaves[e.leaf].outer, e.error)
    {
      hide Grouped, FirstGroup, Call, Fill, Progress, Inputs;
      ghost var start, done, outs, f := db, 0, [], Failed(0, PROTOCOL);
      var group: seq<Leaf> := [];
      NothingRun(sys.run, leaves, start);
      FillNone(subs, leaves, Blanks(subs));
      for i := 0 to |leaves|
        invariant 0 <= done <= i && group == leaves[done..i] && SameName(group) && (i > 0 ==> group != [])
        invariant |outs| == done && Progress(sys.run, leaves, start, done, outs, db)
        invariant slots[..] == Fill(subs, leaves[..done], outs, Blanks(subs))
        invariant forall k :: 0 <= k < |subs| ==> slots[k].id == subs[k].id
      {
        var p := leaves[i];
        if |group| > 0 && group[0].name != p.name {
          ghost var before := db;
          err, f := FlushNext(subs, leaves, group, start, done, outs, i);
          if err { return true, Grouped(sys.run, leaves, start); }
          done, outs, group := i, outs + f.outs, [];
        }
        group := group + [p];
        assert group == leaves[done..i + 1];
      }
      err, f := FlushNext(subs, leaves, group, start, done, outs, |leaves|);
      e := Grouped(sys.run, leaves, start);
      if err { return; }
      AllRun(sys.run, leaves, start, outs + f.outs, db);
      assert leaves[..|leaves|] == leaves;
    }

    /** The group that has just ended. */
    method FlushNext(subs: seq<Sub>, leaves: seq<Leaf>, group: seq<Leaf>, ghost start: S, ghost done: nat,
                     ghost outs: seq<string>, ghost i: nat)
      returns (err: bool, ghost f: Exec<S>)
      requires done < i <= |leaves| && group == leaves[done..i] && SameName(group)
      requires i < |leaves| ==> leaves[i].name != leaves[done].name
      requires |outs| == done && Progress(sys.run, leaves, start, done, outs, db)
      requires forall k :: 0 <= k < |leaves| ==> leaves[k].outer < |subs|
      requires slots.Length == |subs| && slots[..] == Fill(subs, leaves[..done], outs, Blanks(subs))
      requires forall k :: 0 <= k < |subs| ==> slots[k].id == subs[k].id
      modifies `db, slots
      ensures err <==> f.Failed?
      ensures f.Done? ==> |f.outs| == |group| && Progress(sys.run, leaves, start, i, outs + f.outs, db)
      ensures f.Done? ==> slots[..] == Fill(subs, leaves[..i], outs + f.outs, Blanks(subs))
      ensures f.Done? ==> forall k :: 0 <= k < |subs| ==> slots[k].id == subs[k].id
      ensures f.Failed? ==> f.leaf < |group| && Grouped(sys.run, leaves, start) == Failed(done + f.leaf, f.error)
      ensures f.Failed? ==> slots[..] == AbortAll(subs, leaves[done + f.leaf].outer, f.error)
    {
      hide Grouped, FirstGroup, Fill, Progress, Inputs;
      ghost var before, filled := db, slots[..];
      GroupEnds(leaves, done, i);
      err, f := Flush(subs, group);
      GroupRan(sys.run, leaves, start, done, outs, before, i, f);
      if !err {
        FillAppend(subs, leaves[..done], outs, group, f.outs, Blanks(subs));
        assert leaves[..i] == leaves[..done] + group;
        FillIds(subs, group, f.outs, filled);
      }
    }

    /** The deferred part: every repeat's slot from its leader's. */
    method Mirror(subs: seq<Sub>, dup: map<int, int>)
      requires slots.Length == |subs| && ValidDup(dup, |subs|)
      modifies slots
      ensures slots[..] == Mirrored(subs, dup, old(slots[..]))
    {
      ghost var before := slots[..];
      for i := 0 to |subs|
        invariant forall j :: 0 <= j < |subs| ==>
          slots[j] == if j in dup && j < i then Named(before[dup[j]], subs[j].id) else before[j]
      {
        if i in dup { slots[i] := Named(slots[dup[i]], subs[i].id); }
      }
    }

    /** All but the mirroring: what the transaction did, and the leaders' slots. */
    method RunBatch(subs: seq<Sub>, dup: map<int, int>, w: Weather) returns (ghost v: Verdict<S>)
      requires subs != [] && ValidDup(dup, |subs|) && slots.Length == |subs| && slots[..] == Blanks(subs)
      modifies `db, slots
      ensures v == Judge(sys, w, subs, dup, Grouped(sys.run, LeavesOf(sys, subs, dup), old(db))) && Sound(subs, dup, v)
      ensures v.Served? ==> db == v.state && slots[..] == Fill(subs, v.leaves, v.outs, Blanks(subs))
      ensures v.Stopped? ==> db == old(db) && slots[..] == AbortAll(subs, v.offender, v.error)
    {
      hide Grouped, Fill, Sound, Covers, Extra;
      ghost var start := db;
      v := Judge(sys, w, subs, dup, Grouped(sys.run, LeavesOf(sys, subs, dup), db));
      SoundFacts(sys, w, subs, dup, db);
      var x := ExpandBatch(subs, dup);
      if x.Refused? {
        Abort(subs, x.outer, x.error);
        return;
      }
      var leaves := x.leaves;
      var extra := FindExtra(leaves);
      if extra.Some? {
        Abort(subs, extra.value, ONE_FILE);
        return;
      }
      var refusal := GateRefusal(sys, leaves);
      if refusal.Some? {
        Abort(subs, leaves[refusal.value.0].outer, refusal.value.1);
        return;
      }
      if w.begin.Some? {
        Abort(subs, 0, w.begin.value);
        return;
      }
      var saved := db;
      var err := RunAndCommit(subs, leaves, w);
      if err { db := saved; }
    }

    /** Inside the transaction: false once it is committed. */
    method RunAndCommit(subs: seq<Sub>, leaves: seq<Leaf>, w: Weather) returns (err: bool)
      requires slots.Length == |subs| && slots[..] == Blanks(subs)
      requires leaves != [] && forall k :: 0 <= k < |leaves| ==> leaves[k].outer < |subs|
      modifies `db, slots
      ensures var e := Grouped(sys.run, leaves, old(db));
        && (err <==> e.Failed? || w.commit.Some?)
        && (e.Failed? ==> e.leaf < |leaves| && slots[..] == AbortAll(subs, leaves[e.leaf].outer, e.error))
        && (e.Done? ==> |e.outs| == |leaves|)
        && (e.Done? && w.commit.Some? ==> slots[..] == AbortAll(subs, 0, w.commit.value))
        && (!err ==> db == e.state && slots[..] == Fill(subs, leaves, e.outs, Blanks(subs)))
    {
      hide Grouped, Fill;
      ghost var e;
      err, e := RunGroups(subs, leaves);
      if !err && w.commit.Some? {
        FillIds(subs, leaves, e.outs, Blanks(subs));
        Abort(subs, 0, w.commit.value);
        err := true;
      }
    }

    /** A batch is all or nothing: served, it is what the groups did; stopped,
        the database is as it was. */
    method Dispatch(subs: seq<Sub>, w: Weather)
      returns (response: seq<Response>, ghost dup: map<int, int>, ghost v: Verdict<S>)
      requires PlainNames(sys.handlers)
      modifies this
      ensures subs == [] ==> response == [] && db == old(db)
      ensures subs != [] ==>
        && ValidDup(dup, |subs|)
        && (forall i :: i in dup <==> Repeats(sys.handlers, subs, i))
        && (forall i :: i in dup ==> Leads(sys.handlers, subs, dup[i], i))
        && v == Judge(sys, w, subs, dup, Grouped(sys.run, LeavesOf(sys, subs, dup), old(db))) && Sound(subs, dup, v)
        && (v.Served? <==> ComesThrough(sys, w, subs, dup, LeavesOf(sys, subs, dup), Grouped(sys.run, LeavesOf(sys, subs, dup), old(db))))
        && (v.Stopped? ==>
             ToBlame(sys, w, subs, dup, LeavesOf(sys, subs, dup), Grouped(sys.run, LeavesOf(sys, subs, dup), old(db)), v.offender, v.error))
        && response == Slots(subs, dup, v)
        && db == if v.Served? then v.state else old(db)
    {
      hide Grouped, Fill, Sound, Judge, Repeats, ComesThrough, ToBlame;
      dup, v := map[], Stopped(0, ABORTED);
      slots := new Response[|subs|](i requires 0 <= i < |subs| => Blank(subs[i].id));
      if |subs| == 0 { return [], dup, v; }
      var repeats := DedupReads(sys.handlers, subs);
      dup := repeats;
      assert forall i | i in dup :: Leads(sys.handlers, subs, dup[i], i);
      assert slots[..] == Blanks(subs);
      ghost var start := db;
      v := RunBatch(subs, repeats, w);
      DispatchTells(sys, w, subs, dup, start);
      Mirror(subs, repeats);
      response := slots[..];
    }
  }

  lemma DispatchTells<S>(sys: System<S>, w: Weather, subs: seq<Sub>, dup: map<int, int>, db: S)
    requires ValidDup(dup, |subs|) && subs != []
    ensures var leaves := LeavesOf(sys, subs, dup);
      var exec := Grouped(sys.run, leaves, db);
      var v := Judge(sys, w, subs, dup, exec);
      && (v.Served? <==> ComesThrough(sys, w, subs, dup, leaves, exec))
      && (v.Stopped? ==> ToBlame(sys, w, subs, dup, leaves, exec, v.offender, v.error))
  {
    hide Grouped, Judge, ComesThrough, ToBlame;
    AloneFits(sys.run, LeavesOf(sys, subs, dup), db);
    ZeroLeads(dup, |subs|);
    VerdictTells(sys, w, subs, dup, Grouped(sys.run, LeavesOf(sys, subs, dup), db));
  }

  lemma SoundFacts<S>(sys: System<S>, w: Weather, subs: seq<Sub>, dup: map<int, int>, db: S)
    requires ValidDup(dup, |subs|) && subs != []
    ensures Sound(subs, dup, Judge(sys, w, subs, dup, Grouped(sys.run, LeavesOf(sys, subs, dup), db)))
    ensures var x := ExpandAll(sys, subs, dup, |subs|);
      x.Leaves? ==> x.leaves != [] && forall k :: 0 <= k < |x.leaves| ==> x.leaves[k].outer < |subs|
  {
    hide Grouped, Judge;
    AloneFits(sys.run, LeavesOf(sys, subs, dup), db);
    JudgeIsSound(sys, w, subs, dup, Grouped(sys.run, LeavesOf(sys, subs, dup), db));
    ExpandedCovers(sys, subs, dup, |subs|);
    ZeroLeads(dup, |subs|);
    var x := ExpandAll(sys, subs, dup, |subs|);
    if x.Leaves? { assert HasLast(x.leaves, 0); }
  }

  // ------------------------------------------------------- the grouping loop's proof

  /** The whole, when `done` leaves have given `outs` and the rest comes to `rest`. */
  ghost predicate Continues<S>(whole: Exec<S>, rest: Exec<S>, done: nat, outs: seq<string>) {
    whole == if rest.Failed? then Failed(done + rest.leaf, rest.error) else Done(rest.state, outs + rest.outs)
  }

  lemma ContinuesOn<S>(whole: Exec<S>, rest: Exec<S>, done: nat, outs: seq<string>, last: Exec<S>, n: nat, more: seq<string>)
    requires Continues(whole, rest, done, outs) && Continues(rest, last, n, more)
    ensures Continues(whole, last, done + n, outs + more)
  {
    if last.Done? { assert outs + (more + last.outs) == (outs + more) + last.outs; }
  }

  lemma GroupedStep<S>(run: Slice<S>, leaves: seq<Leaf>, s: S, n: nat)
    requires leaves != [] && n == FirstGroup(leaves)
    ensures var first := Call(run, leaves[0].name, Inputs(leaves[..n]), s);
      if first.Failed? then Grouped(run, leaves, s) == first
      else Continues(Grouped(run, leaves, s), Grouped(run, leaves[n..], first.state), n, first.outs)
  {
  }

  /** The first `done` leaves have run, whole groups of them. */
  ghost predicate Progress<S>(run: Slice<S>, leaves: seq<Leaf>, start: S, done: nat, outs: seq<string>, db: S)
    requires done <= |leaves|
  {
    Continues(Grouped(run, leaves, start), Grouped(run, leaves[done..], db), done, outs)
  }

  lemma NothingRun<S>(run: Slice<S>, leaves: seq<Leaf>, start: S)
    ensures Progress(run, leaves, start, 0, [], start)
  {
    hide Grouped;
    assert leaves[0..] == leaves;
    var e := Grouped(run, leaves, start);
    if e.Done? { assert [] + e.outs == e.outs; }
  }

  lemma AllRun<S>(run: Slice<S>, leaves: seq<Leaf>, start: S, outs: seq<string>, db: S)
    requires Progress(run, leaves, start, |leaves|, outs, db)
    ensures Grouped(run, leaves, start) == Done(db, outs)
  {
    hide Grouped;
    assert leaves[|leaves|..] == [];
    GroupedNone(run, db);
    assert outs + [] == outs;
  }

  lemma GroupedNone<S>(run: Slice<S>, db: S)
    ensures Grouped(run, [], db) == Done(db, [])
  {
  }

  lemma {:induction false} FirstGroupIs(leaves: seq<Leaf>, n: nat)
    requires 1 <= n <= |leaves| && SameName(leaves[..n]) && (n < |leaves| ==> leaves[n].name != leaves[0].name)
    ensures FirstGroup(leaves) == n
    decreases n
  {
    assert forall k | 0 <= k < n :: leaves[..n][k] == leaves[k];
    if n > 1 {
      assert leaves[..n][1].name == leaves[..n][0].name;
      assert leaves[1..][..n - 1] == leaves[..n][1..];
      FirstGroupIs(leaves[1..], n - 1);
    }
  }

  /** The group collected so far is the whole first group of what is left. */
  lemma GroupEnds(leaves: seq<Leaf>, done: nat, i: nat)
    requires done < i <= |leaves| && SameName(leaves[done..i])
    requires i < |leaves| ==> leaves[i].name != leaves[done].name
    ensures FirstGroup(leaves[done..]) == i - done && leaves[done..][..i - done] == leaves[done..i]
  {
    assert leaves[done..][..i - done] == leaves[done..i];
    FirstGroupIs(leaves[done..], i - done);
  }

  /** A group has run: the batch stops at its failing leaf, or goes on behind it. */
  lemma GroupRan<S>(run: Slice<S>, leaves: seq<Leaf>, start: S, done: nat, outs: seq<string>, db: S, i: nat, f: Exec<S>)
    requires done < i <= |leaves| && Progress(run, leaves, start, done, outs, db)
    requires FirstGroup(leaves[done..]) == i - done && leaves[done..][..i - done] == leaves[done..i]
    requires f == Call(run, leaves[done].name, Inputs(leaves[done..i]), db)
    ensures f.Failed? ==> Grouped(run, leaves, start) == Failed(done + f.leaf, f.error)
    ensures f.Done? ==> Progress(run, leaves, start, i, outs + f.outs, f.state)
  {
    hide Grouped, Call, Inputs, FirstGroup;
    GroupedStep(run, leaves[done..], db, i - done);
    if f.Done? {
      assert leaves[done..][i - done..] == leaves[i..];
      ContinuesOn(Grouped(run, leaves, start), Grouped(run, leaves[done..], db), done, outs,
                  Grouped(run, leaves[i..], f.state), i - done, f.outs);
    }
  }

  lemma {:induction false} FillAppend(subs: seq<Sub>, a: seq<Leaf>, outsA: seq<string>, b: seq<Leaf>, outsB: seq<string>,
                                      slots: seq<Response>)
    requires |outsA| == |a| && |outsB| == |b| && |slots| == |subs|
    requires forall k :: 0 <= k < |a| ==> a[k].outer < |subs|
    requires forall k :: 0 <= k < |b| ==> b[k].outer < |subs|
    ensures Fill(subs, a + b, outsA + outsB, slots) == Fill(subs, b, outsB, Fill(subs, a, outsA, slots))
    decreases |a|
  {
    if a == [] {
      assert a + b == b && outsA + outsB == outsB;
    } else {
      var l := a[0];
      var next := if l.last then slots[l.outer := Ok(subs[l.outer].id, outsA[0])] else slots;
      assert (a + b)[1..] == a[1..] + b && (outsA + outsB)[1..] == outsA[1..] + outsB;
      FillAppend(subs, a[1..], outsA[1..], b, outsB, next);
    }
  }

  lemma FillNone(subs: seq<Sub>, leaves: seq<Leaf>, slots: seq<Response>)
    requires |slots| == |subs|
    ensures leaves[..0] == [] && Fill(subs, [], [], slots) == slots
  {
  }

  lemma {:induction false} FillIds(subs: seq<Sub>, leaves: seq<Leaf>, outs: seq<string>, slots: seq<Response>)
    requires |outs| == |leaves| && |slots| == |subs|
    requires forall k :: 0 <= k < |leaves| ==> leaves[k].outer < |subs|
    requires forall k :: 0 <= k < |subs| ==> slots[k].id == subs[k].id
    ensures forall k :: 0 <= k < |subs| ==> Fill(subs, leaves, outs, slots)[k].id == subs[k].id
    decreases |leaves|
  {
    if leaves != [] {
      var l := leaves[0];
      var next := if l.last then slots[l.outer := Ok(subs[l.outer].id, outs[0])] else slots;
      FillIds(subs, leaves[1..], outs[1..], next);
    }
  }

  lemma FillSnoc(subs: seq<Sub>, leaves: seq<Leaf>, outs: seq<string>, i: nat, slots: seq<Response>)
    requires |outs| == |leaves| && |slots| == |subs| && i < |leaves|
    requires forall k :: 0 <= k < |leaves| ==> leaves[k].outer < |subs|
    ensures var before, l := Fill(subs, leaves[..i], outs[..i], slots), leaves[i];
      Fill(subs, leaves[..i + 1], outs[..i + 1], slots) ==
        if l.last then before[l.outer := Ok(subs[l.outer].id, outs[i])] else before
  {
    assert leaves[..i + 1] == leaves[..i] + [leaves[i]] && outs[..i + 1] == outs[..i] + [outs[i]];
    FillAppend(subs, leaves[..i], outs[..i], [leaves[i]], [outs[i]], slots);
  }

  /** The first step refused is what the whole expansion answers. */
  lemma {:induction false} StepsFrom<S>(sys: System<S>, outer: nat, data: string, names: seq<Name>, k: nat)
    requires k <= |names|
    ensures Steps(sys, outer, data, names[..k]).Refused? ==> Steps(sys, outer, data, names) == Steps(sys, outer, data, names[..k])
    ensures k < |names| && Steps(sys, outer, data, names[..k + 1]).Refused? ==>
      Steps(sys, outer, data, names) == Steps(sys, outer, data, names[..k + 1])
    decreases |names| - k
  {
    if k == |names| {
      assert names[..k] == names;
    } else {
      StepsFrom(sys, outer, data, names, k + 1);
      assert names[..k + 1][..k] == names[..k];
    }
  }

  lemma {:induction false} RefusedStays<S>(sys: System<S>, subs: seq<Sub>, dup: map<int, int>, n: nat)
    requires n <= |subs| && ExpandAll(sys, subs, dup, n).Refused?
    ensures ExpandAll(sys, subs, dup, |subs|) == ExpandAll(sys, subs, dup, n)
    decreases |subs| - n
  {
    if n < |subs| { RefusedStays(sys, subs, dup, n + 1); }
  }

  lemma {:induction false} ExtraStays(once: set<Name>, leaves: seq<Leaf>, n: nat)
    requires n <= |leaves| && Extra(once, leaves[..n]).Some?
    ensures Extra(once, leaves) == Extra(once, leaves[..n])
    decreases |leaves| - n
  {
    if n == |leaves| {
      assert leaves[..n] == leaves;
    } else {
      assert leaves[..n + 1][..n] == leaves[..n];
      ExtraStays(once, leaves, n + 1);
    }
  }

  predicate Other(once: set<Name>, leaves: seq<Leaf>, n: nat)
    requires n < |leaves|
  {
    exists k :: 0 <= k < n && leaves[k].name in once && leaves[k].outer != leaves[n].outer
  }

  lemma ExtraStep(once: set<Name>, leaves: seq<Leaf>, n: nat)
    requires n < |leaves| && Extra(once, leaves[..n]) == None
    ensures leaves[n].name in once && Other(once, leaves, n) ==> Extra(once, leaves) == Some(leaves[n].outer)
    ensures !(leaves[n].name in once && Other(once, leaves, n)) ==> Extra(once, leaves[..n + 1]) == None
  {
    var more := leaves[..n + 1];
    assert more[..n] == leaves[..n] && more[n] == leaves[n];
    assert forall k | 0 <= k < n :: leaves[..n][k] == leaves[k];
    if leaves[n].name in once && Other(once, leaves, n) {
      var k :| 0 <= k < n && leaves[k].name in once && leaves[k].outer != leaves[n].outer;
      assert leaves[..n][k] == leaves[k];
      ExtraStays(once, leaves, n + 1);
    }
  }
}
