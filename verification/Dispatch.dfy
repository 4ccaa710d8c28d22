/**
 A batch: sub-requests expanded to leaves, adjacent leaves of one handler run as
 one slice call, all in one transaction, and one response a sub-request.
 */
module Dispatch {
  import opened Dedup

  datatype Error = Error(code: string, message: string)

  datatype Response = Blank(id: string) | Ok(id: string, data: string) | Bad(id: string, error: Error)

  /** One handler invocation; `last` marks the step whose output is the answer. */
  datatype Leaf = Leaf(outer: nat, name: Name, input: string, last: bool)

  /** A slice call's outcome; a failure may name the input it is about. */
  datatype RunResult<S> = Ran(state: S, outs: seq<string>) | RunFailed(index: int, error: Error)

  type Slice<!S> = (Name, seq<string>, S) -> RunResult<S>

  /** What running some leaves comes to: an output each, or which one failed. */
  datatype Exec<S> = Done(state: S, outs: seq<string>) | Failed(leaf: nat, error: Error)

  const PROTOCOL := Error("handler_protocol", "internal error")
  const ABORTED := Error("aborted", "batch aborted by sibling sub-request")
  const UNKNOWN := Error("unknown_handler", "no handler or process registered")
  const UNKNOWN_STEP := Error("unknown_step", "process step targets an unknown handler")
  const ONE_FILE := Error("validation", "one import file per request")

  // ------------------------------------------------------------------- execution

  /** One slice call as the dispatcher takes it. */
  function Call<S>(run: Slice<S>, name: Name, ins: seq<string>, s: S): (e: Exec<S>)
    requires ins != []
    ensures e.Done? ==> |e.outs| == |ins|
    ensures e.Failed? ==> e.leaf < |ins|
  {
    match run(name, ins, s)
    case Ran(state, outs) => if |outs| == |ins| then Done(state, outs) else Failed(0, PROTOCOL)
    case RunFailed(index, error) => Failed(if 0 <= index < |ins| then index else 0, error)
  }

  /** Some leaves have run; these come next. */
  function Then<S>(first: Exec<S>, n: nat, rest: S -> Exec<S>): Exec<S> {
    if first.Failed? then first
    else
      match rest(first.state)
      case Done(state, outs) => Done(state, first.outs + outs)
      case Failed(leaf, error) => Failed(n + leaf, error)
  }

  /** Every leaf on its own, in order: the reference. */
  function Alone<S>(run: Slice<S>, leaves: seq<Leaf>, s: S): Exec<S>
    decreases |leaves|
  {
    if leaves == [] then Done(s, [])
    else Then(Call(run, leaves[0].name, [leaves[0].input], s), 1, (t: S) => Alone(run, leaves[1..], t))
  }

  function Inputs(leaves: seq<Leaf>): (ins: seq<string>)
    ensures |ins| == |leaves| && forall i :: 0 <= i < |ins| ==> ins[i] == leaves[i].input
  {
    seq(|leaves|, i requires 0 <= i < |leaves| => leaves[i].input)
  }

  predicate SameName(leaves: seq<Leaf>) {
    forall i :: 0 <= i < |leaves| ==> leaves[i].name == leaves[0].name
  }

  /** How many leaves at the front share a handler. */
  function FirstGroup(leaves: seq<Leaf>): (n: nat)
    requires leaves != []
    ensures 1 <= n <= |leaves| && SameName(leaves[..n])
    ensures n < |leaves| ==> leaves[n].name != leaves[0].name
  {
    if |leaves| > 1 && leaves[1].name == leaves[0].name then
      var n := FirstGroup(leaves[1..]);
      assert forall i | 0 <= i < n :: leaves[1..][..n][i] == leaves[i + 1] && leaves[1..][..n][i].name == leaves[1].name;
      1 + n
    else 1
  }

  /** Group after group. */
  function Grouped<S>(run: Slice<S>, leaves: seq<Leaf>, s: S): (e: Exec<S>)
    decreases |leaves|
  {
    if leaves == [] then Done(s, [])
    else
      var n := FirstGroup(leaves);
      Then(Call(run, leaves[0].name, Inputs(leaves[..n]), s), n, (t: S) => Grouped(run, leaves[n..], t))
  }

  /** A slice call does what its inputs would do one by one. */
  ghost predicate IsFold<S(!new)>(run: Slice<S>) {
    forall name, ins: seq<string>, s :: |ins| > 1 ==> FoldsAt(run, name, ins, s)
  }

  ghost predicate FoldsAt<S>(run: Slice<S>, name: Name, ins: seq<string>, s: S)
    requires |ins| > 1
  {
    Call(run, name, ins, s) == Then(Call(run, name, ins[..1], s), 1, (t: S) => Call(run, name, ins[1..], t))
  }

  /** Then only looks at the state its first part leaves. */
  lemma ThenSame<S>(first: Exec<S>, n: nat, f: S -> Exec<S>, g: S -> Exec<S>)
    requires first.Done? ==> f(first.state) == g(first.state)
    ensures Then(first, n, f) == Then(first, n, g)
  {
  }

  lemma ThenThen<S>(a: Exec<S>, n: nat, f: S -> Exec<S>, m: nat, g: S -> Exec<S>)
    ensures Then(Then(a, n, f), n + m, g) == Then(a, n, (t: S) => Then(f(t), m, g))
  {
    if a.Done? && f(a.state).Done? && g(f(a.state).state).Done? {
      assert (a.outs + f(a.state).outs) + g(f(a.state).state).outs == a.outs + (f(a.state).outs + g(f(a.state).state).outs);
    }
  }

  lemma {:induction false} AloneAppend<S>(run: Slice<S>, a: seq<Leaf>, b: seq<Leaf>, s: S)
    ensures Alone(run, a + b, s) == Then(Alone(run, a, s), |a|, (t: S) => Alone(run, b, t))
    decreases |a|
  {
    var rest := (t: S) => Alone(run, b, t);
    if a == [] {
      assert a + b == b;
      NothingFirst(s, rest);
    } else {
      var first := Call(run, a[0].name, [a[0].input], s);
      var mid := (t: S) => Alone(run, a[1..], t);
      var both := (t: S) => Then(mid(t), |a| - 1, rest);
      assert (a + b)[0] == a[0] && (a + b)[1..] == a[1..] + b;
      ThenThen(first, 1, mid, |a| - 1, rest);
      if first.Done? { AloneAppend(run, a[1..], b, first.state); }
      ThenSame(first, 1, both, (t: S) => Alone(run, (a + b)[1..], t));
    }
  }

  lemma NothingFirst<S>(s: S, rest: S -> Exec<S>)
    ensures Then(Done(s, []), 0, rest) == rest(s)
  {
    if rest(s).Done? { assert [] + rest(s).outs == rest(s).outs; }
  }

  /** One slice call over a group is its leaves one by one. */
  lemma {:induction false} GroupIsAlone<S(!new)>(run: Slice<S>, group: seq<Leaf>, s: S)
    requires IsFold(run) && group != [] && SameName(group)
    ensures Call(run, group[0].name, Inputs(group), s) == Alone(run, group, s)
    decreases |group|
  {
    var name, ins := group[0].name, Inputs(group);
    var first := Call(run, name, [group[0].input], s);
    assert ins[..1] == [group[0].input] && ins[1..] == Inputs(group[1..]);
    var alone := (t: S) => Alone(run, group[1..], t);
    if |group| == 1 {
      assert group[1..] == [];
      NothingLast(first, alone);
      assert ins == [group[0].input];
    } else {
      assert FoldsAt(run, name, ins, s);
      if first.Done? {
        assert group[1..][0].name == name;
        GroupIsAlone(run, group[1..], first.state);
      }
      ThenSame(first, 1, (t: S) => Call(run, name, ins[1..], t), alone);
    }
  }

  lemma NothingLast<S>(first: Exec<S>, rest: S -> Exec<S>)
    requires first.Done? ==> rest(first.state) == Done(first.state, [])
    ensures Then(first, 1, rest) == first
  {
  }

  /** Grouping changes nothing: same state, same outputs, same failing leaf. */
  lemma {:induction false} GroupingRefines<S(!new)>(run: Slice<S>, leaves: seq<Leaf>, s: S)
    requires IsFold(run)
    ensures Grouped(run, leaves, s) == Alone(run, leaves, s)
    decreases |leaves|
  {
    if leaves != [] {
      var n := FirstGroup(leaves);
      var group, rest := leaves[..n], leaves[n..];
      GroupIsAlone(run, group, s);
      AloneAppend(run, group, rest, s);
      assert leaves == group + rest;
      var first := Alone(run, group, s);
      if first.Done? { GroupingRefines(run, rest, first.state); }
      ThenSame(first, n, (t: S) => Grouped(run, rest, t), (t: S) => Alone(run, rest, t));
    }
  }

  lemma {:induction false} AloneFits<S>(run: Slice<S>, leaves: seq<Leaf>, s: S)
    ensures Grouped(run, leaves, s).Done? ==> |Grouped(run, leaves, s).outs| == |leaves|
    ensures Grouped(run, leaves, s).Failed? ==> Grouped(run, leaves, s).leaf < |leaves|
    decreases |leaves|
  {
    if leaves != [] {
      var n := FirstGroup(leaves);
      var first := Call(run, leaves[0].name, Inputs(leaves[..n]), s);
      if first.Done? { AloneFits(run, leaves[n..], first.state); }
    }
  }
}
