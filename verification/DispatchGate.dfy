/**
 What stops a batch before its transaction, with repeated reads left out and
 with them run: the same sub-request, for the same reason.
 */
module DispatchGate {
  import opened Prelude
  import opened Dedup
  import opened Dispatch
  import opened DispatchBatch

  /** One pass over the leaves: which it refuses, and why.  A pass that cannot
      be made at all refuses whatever comes first. */
  type Pass = (Name, string) -> Option<Error>

  function FirstRefused(pass: Pass, leaves: seq<Leaf>): (r: Option<(nat, Error)>)
    ensures r.Some? ==> r.value.0 < |leaves|
  {
    if leaves == [] then None
    else
      var init, last := leaves[..|leaves| - 1], leaves[|leaves| - 1];
      var r := FirstRefused(pass, init);
      if r.Some? then r
      else if pass(last.name, last.input).Some? then Some((|init|, pass(last.name, last.input).value)) else None
  }

  /** The role gate and the authorization pass, one after the other. */
  function Passed(passes: seq<Pass>, leaves: seq<Leaf>): (r: Option<(nat, Error)>)
    ensures r.Some? ==> r.value.0 < |leaves|
  {
    if passes == [] then None
    else
      var r := Passed(passes[..|passes| - 1], leaves);
      if r.Some? then r else FirstRefused(passes[|passes| - 1], leaves)
  }

  /** Pass p refuses leaf k with e, and none before it. */
  ghost predicate RefusedAt(pass: Pass, leaves: seq<Leaf>, k: int, e: Error) {
    && 0 <= k < |leaves| && pass(leaves[k].name, leaves[k].input) == Some(e)
    && forall j :: 0 <= j < k ==> pass(leaves[j].name, leaves[j].input).None?
  }

  ghost predicate LetsAllThrough(pass: Pass, leaves: seq<Leaf>) {
    forall k :: 0 <= k < |leaves| ==> pass(leaves[k].name, leaves[k].input).None?
  }

  lemma {:induction false} FirstRefusedIs(pass: Pass, leaves: seq<Leaf>)
    ensures var r := FirstRefused(pass, leaves);
      if r.None? then LetsAllThrough(pass, leaves) else RefusedAt(pass, leaves, r.value.0, r.value.1)
  {
    if leaves != [] {
      var init := leaves[..|leaves| - 1];
      FirstRefusedIs(pass, init);
      assert forall k | 0 <= k < |init| :: init[k] == leaves[k];
    }
  }

  ghost predicate Decides(passes: seq<Pass>, leaves: seq<Leaf>, p: int, k: int, e: Error) {
    0 <= p < |passes| && RefusedAt(passes[p], leaves, k, e) && forall q :: 0 <= q < p ==> LetsAllThrough(passes[q], leaves)
  }

  /** The first pass that refuses a leaf decides, by the first leaf it refuses. */
  lemma {:induction false} PassedIs(passes: seq<Pass>, leaves: seq<Leaf>)
    ensures var r := Passed(passes, leaves);
      && (r.None? <==> forall p :: 0 <= p < |passes| ==> LetsAllThrough(passes[p], leaves))
      && (r.Some? ==> exists p :: Decides(passes, leaves, p, r.value.0, r.value.1))
  {
    if passes != [] {
      var n := |passes| - 1;
      PassedIs(passes[..n], leaves);
      FirstRefusedIs(passes[n], leaves);
      assert forall p | 0 <= p < n :: passes[..n][p] == passes[p];
      var r := Passed(passes, leaves);
      hide FirstRefused, RefusedAt, LetsAllThrough;
      if Passed(passes[..n], leaves).Some? {
        var p :| Decides(passes[..n], leaves, p, r.value.0, r.value.1);
        assert Decides(passes, leaves, p, r.value.0, r.value.1);
        RefusesOne(passes[..n], leaves, r.value.0, r.value.1);
      } else if r.Some? {
        assert Decides(passes, leaves, n, r.value.0, r.value.1);
        NotAll(passes[n], leaves, r.value.0, r.value.1);
      }
    }
  }

  lemma NotAll(pass: Pass, leaves: seq<Leaf>, k: int, e: Error)
    requires RefusedAt(pass, leaves, k, e)
    ensures !LetsAllThrough(pass, leaves)
  {
  }

  lemma RefusesOne(passes: seq<Pass>, leaves: seq<Leaf>, k: int, e: Error)
    requires exists p :: 0 <= p < |passes| && RefusedAt(passes[p], leaves, k, e)
    ensures exists p :: 0 <= p < |passes| && !LetsAllThrough(passes[p], leaves)
  {
    var p :| 0 <= p < |passes| && RefusedAt(passes[p], leaves, k, e);
    NotAll(passes[p], leaves, k, e);
  }

  ghost predicate LeafByLeaf<S>(sys: System<S>, passes: seq<Pass>) {
    forall leaves :: sys.gate(leaves) == Passed(passes, leaves)
  }

  /** A handler allowed once a batch is no read, so it is never left out. */
  ghost predicate OnceWrites<S>(sys: System<S>) {
    forall name :: name in sys.onePerBatch ==> !IsRead(sys.handlers, name)
  }

  ghost predicate Led(handlers: Registry, subs: seq<Sub>, dup: map<int, int>) {
    forall i :: i in dup ==> Leads(handlers, subs, dup[i], i)
  }

  // ------------------------------------------------------------------- expansion

  predicate Holds(leaves: seq<Leaf>, name: Name, input: string) {
    exists k :: 0 <= k < |leaves| && leaves[k].name == name && leaves[k].input == input
  }

  lemma HoldsMore(a: seq<Leaf>, b: seq<Leaf>, name: Name, input: string)
    requires Holds(a, name, input) || Holds(b, name, input)
    ensures Holds(a + b, name, input)
  {
    if k :| 0 <= k < |a| && a[k].name == name && a[k].input == input {
      assert (a + b)[k] == a[k];
    } else {
      var k :| 0 <= k < |b| && b[k].name == name && b[k].input == input;
      assert (a + b)[|a| + k] == b[k];
    }
  }

  /** A read that runs is not refused, and is one of the leaves. */
  lemma {:induction false} ReadIsThere<S>(sys: System<S>, subs: seq<Sub>, dup: map<int, int>, l: nat, n: nat)
    requires l < n <= |subs| && l !in dup && IsRead(sys.handlers, subs[l].name) && ExpandAll(sys, subs, dup, n).Leaves?
    ensures sys.refuses(subs[l].name, subs[l].data) == None
    ensures Holds(ExpandAll(sys, subs, dup, n).leaves, subs[l].name, subs[l].data)
  {
    hide Holds;
    var before := ExpandAll(sys, subs, dup, n - 1);
    if l < n - 1 {
      ReadIsThere(sys, subs, dup, l, n - 1);
      if n - 1 !in dup {
        HoldsMore(before.leaves, Expand(sys, n - 1, subs[n - 1]).leaves, subs[l].name, subs[l].data);
      }
    } else {
      var leaf := Leaf(l, subs[l].name, subs[l].data, true);
      OneHolds(leaf);
      HoldsMore(before.leaves, [leaf], subs[l].name, subs[l].data);
    }
  }

  lemma OneHolds(leaf: Leaf)
    ensures Holds([leaf], leaf.name, leaf.input)
  {
    assert [leaf][0] == leaf;
  }

  /** Run after all, a repeat is one leaf, like one that is there already. */
  lemma RepeatExpands<S>(sys: System<S>, subs: seq<Sub>, dup: map<int, int>, i: nat)
    requires ValidDup(dup, |subs|) && Led(sys.handlers, subs, dup) && i in dup
    requires ExpandAll(sys, subs, map[], i).Leaves?
    ensures Expand(sys, i, subs[i]) == Leaves([Leaf(i, subs[i].name, subs[i].data, true)])
    ensures IsRead(sys.handlers, subs[i].name)
    ensures Holds(ExpandAll(sys, subs, map[], i).leaves, subs[i].name, subs[i].data)
  {
    hide Holds;
    assert Leads(sys.handlers, subs, dup[i], i);
    ReadIsThere(sys, subs, map[], dup[i], i);
  }

  /** What one more sub-request adds to the leaves. */
  lemma ExpandStep<S>(sys: System<S>, subs: seq<Sub>, dup: map<int, int>, n: nat)
    requires 0 < n <= |subs| && ExpandAll(sys, subs, dup, n).Leaves?
    ensures ExpandAll(sys, subs, dup, n - 1).Leaves?
    ensures var x, before := ExpandAll(sys, subs, dup, n).leaves, ExpandAll(sys, subs, dup, n - 1).leaves;
      if n - 1 in dup then x == before
      else Expand(sys, n - 1, subs[n - 1]).Leaves? && x == before + Expand(sys, n - 1, subs[n - 1]).leaves
  {
    hide Expand;
  }

  /** Both expansions are refused, by the same sub-request, or neither is. */
  lemma {:induction false} SameExpansion<S>(sys: System<S>, subs: seq<Sub>, dup: map<int, int>, n: nat)
    requires n <= |subs| && ValidDup(dup, |subs|) && Led(sys.handlers, subs, dup)
    ensures var plain, kept := ExpandAll(sys, subs, map[], n), ExpandAll(sys, subs, dup, n);
      if plain.Refused? then kept == plain else kept.Leaves?
  {
    if n > 0 {
      hide Expand, Led;
      SameExpansion(sys, subs, dup, n - 1);
      if n - 1 in dup && ExpandAll(sys, subs, map[], n - 1).Leaves? { RepeatExpands(sys, subs, dup, n - 1); }
    }
  }

  // ------------------------------------------------------------------ the passes

  lemma {:induction false} RefusedAppend(pass: Pass, a: seq<Leaf>, b: seq<Leaf>)
    ensures var r, first, next := FirstRefused(pass, a + b), FirstRefused(pass, a), FirstRefused(pass, b);
      r == if first.Some? then first else if next.Some? then Some((|a| + next.value.0, next.value.1)) else None
    decreases |b|
  {
    if b == [] {
      assert a + b == a;
    } else {
      RefusedAppend(pass, a, b[..|b| - 1]);
      assert (a + b)[..|a + b| - 1] == a + b[..|b| - 1];
    }
  }

  lemma {:induction false} NoneRefused(pass: Pass, leaves: seq<Leaf>, name: Name, input: string)
    requires FirstRefused(pass, leaves) == None && Holds(leaves, name, input)
    ensures pass(name, input) == None
  {
    var init := leaves[..|leaves| - 1];
    var k :| 0 <= k < |leaves| && leaves[k].name == name && leaves[k].input == input;
    if k < |leaves| - 1 {
      assert init[k] == leaves[k];
      NoneRefused(pass, init, name, input);
    }
  }

  /** A refusal as the answer tells it: by sub-request. */
  function Blame(leaves: seq<Leaf>, r: Option<(nat, Error)>): Option<(nat, Error)>
    requires r.Some? ==> r.value.0 < |leaves|
  {
    if r.None? then None else Some((leaves[r.value.0].outer, r.value.1))
  }

  lemma BlameAppend(pass: Pass, a: seq<Leaf>, b: seq<Leaf>)
    ensures var first := Blame(a, FirstRefused(pass, a));
      Blame(a + b, FirstRefused(pass, a + b)) == if first.Some? then first else Blame(b, FirstRefused(pass, b))
  {
    hide FirstRefused;
    RefusedAppend(pass, a, b);
  }

  lemma BlameOne(pass: Pass, leaf: Leaf)
    ensures pass(leaf.name, leaf.input) == None ==> FirstRefused(pass, [leaf]) == None
  {
    assert [leaf][..0] == [];
  }

  lemma {:induction false} SameRefusal<S>(sys: System<S>, pass: Pass, subs: seq<Sub>, dup: map<int, int>, n: nat)
    requires n <= |subs| && ValidDup(dup, |subs|) && Led(sys.handlers, subs, dup)
    requires ExpandAll(sys, subs, map[], n).Leaves? && ExpandAll(sys, subs, dup, n).Leaves?
    ensures var plain, kept := ExpandAll(sys, subs, map[], n).leaves, ExpandAll(sys, subs, dup, n).leaves;
      Blame(plain, FirstRefused(pass, plain)) == Blame(kept, FirstRefused(pass, kept))
  {
    if n > 0 {
      hide Expand, ExpandAll, Led, FirstRefused, Blame, Holds;
      ExpandStep(sys, subs, map[], n);
      ExpandStep(sys, subs, dup, n);
      SameRefusal(sys, pass, subs, dup, n - 1);
      var plain, kept := ExpandAll(sys, subs, map[], n - 1).leaves, ExpandAll(sys, subs, dup, n - 1).leaves;
      if n - 1 in dup {
        RepeatExpands(sys, subs, dup, n - 1);
        RepeatPasses(pass, plain, Leaf(n - 1, subs[n - 1].name, subs[n - 1].data, true));
      } else {
        BlameBoth(pass, plain, kept, Expand(sys, n - 1, subs[n - 1]).leaves);
      }
    }
  }

  lemma BlameBoth(pass: Pass, a: seq<Leaf>, b: seq<Leaf>, more: seq<Leaf>)
    requires Blame(a, FirstRefused(pass, a)) == Blame(b, FirstRefused(pass, b))
    ensures Blame(a + more, FirstRefused(pass, a + more)) == Blame(b + more, FirstRefused(pass, b + more))
  {
    hide FirstRefused, Blame;
    BlameAppend(pass, a, more);
    BlameAppend(pass, b, more);
  }

  /** A leaf like one there is refused only behind it. */
  lemma RepeatPasses(pass: Pass, leaves: seq<Leaf>, leaf: Leaf)
    requires Holds(leaves, leaf.name, leaf.input)
    ensures Blame(leaves + [leaf], FirstRefused(pass, leaves + [leaf])) == Blame(leaves, FirstRefused(pass, leaves))
  {
    hide Holds, FirstRefused;
    BlameAppend(pass, leaves, [leaf]);
    if FirstRefused(pass, leaves) == None {
      NoneRefused(pass, leaves, leaf.name, leaf.input);
      BlameOne(pass, leaf);
    }
  }

  lemma {:induction false} SamePassed<S>(sys: System<S>, passes: seq<Pass>, subs: seq<Sub>, dup: map<int, int>)
    requires ValidDup(dup, |subs|) && Led(sys.handlers, subs, dup)
    requires ExpandAll(sys, subs, map[], |subs|).Leaves? && ExpandAll(sys, subs, dup, |subs|).Leaves?
    ensures var plain, kept := LeavesOf(sys, subs, map[]), LeavesOf(sys, subs, dup);
      Blame(plain, Passed(passes, plain)) == Blame(kept, Passed(passes, kept))
  {
    if passes != [] {
      hide ExpandAll, Led, FirstRefused;
      SamePassed(sys, passes[..|passes| - 1], subs, dup);
      SameRefusal(sys, passes[|passes| - 1], subs, dup, |subs|);
    }
  }

  // ---------------------------------------------------------------- once a batch

  predicate HasOnce(once: set<Name>, leaves: seq<Leaf>, o: nat) {
    exists k :: 0 <= k < |leaves| && leaves[k].name in once && leaves[k].outer == o
  }

  /** The same once-a-batch sub-requests, and the same one too many. */
  ghost predicate SameOnce(once: set<Name>, a: seq<Leaf>, b: seq<Leaf>) {
    Extra(once, a) == Extra(once, b) && forall o: nat :: HasOnce(once, a, o) <==> HasOnce(once, b, o)
  }

  lemma HasOnceMore(once: set<Name>, a: seq<Leaf>, leaf: Leaf, o: nat)
    ensures HasOnce(once, a + [leaf], o) <==> HasOnce(once, a, o) || (leaf.name in once && leaf.outer == o)
  {
    var all := a + [leaf];
    assert all[|a|] == leaf && forall k | 0 <= k < |a| :: all[k] == a[k];
    if HasOnce(once, a, o) {
      var k :| 0 <= k < |a| && a[k].name in once && a[k].outer == o;
      assert all[k] == a[k];
    }
  }

  lemma ExtraMore(once: set<Name>, a: seq<Leaf>, leaf: Leaf)
    ensures Extra(once, a + [leaf]) ==
      if Extra(once, a).Some? then Extra(once, a)
      else if leaf.name in once && exists o: nat :: HasOnce(once, a, o) && o != leaf.outer then Some(leaf.outer) else None
  {
    var all := a + [leaf];
    assert all[..|all| - 1] == a && all[|all| - 1] == leaf;
    if k :| 0 <= k < |a| && a[k].name in once && a[k].outer != leaf.outer { assert HasOnce(once, a, a[k].outer); }
    if o: nat :| HasOnce(once, a, o) && o != leaf.outer {
      var k :| 0 <= k < |a| && a[k].name in once && a[k].outer == o;
    }
  }

  lemma SameOnceMore(once: set<Name>, a: seq<Leaf>, b: seq<Leaf>, leaf: Leaf)
    requires SameOnce(once, a, b)
    ensures SameOnce(once, a + [leaf], b + [leaf])
  {
    hide HasOnce, Extra;
    ExtraMore(once, a, leaf);
    ExtraMore(once, b, leaf);
    forall o: nat ensures HasOnce(once, a + [leaf], o) <==> HasOnce(once, b + [leaf], o) {
      HasOnceMore(once, a, leaf, o);
      HasOnceMore(once, b, leaf, o);
    }
  }

  lemma {:induction false} SameOnceAppend(once: set<Name>, a: seq<Leaf>, b: seq<Leaf>, more: seq<Leaf>)
    requires SameOnce(once, a, b)
    ensures SameOnce(once, a + more, b + more)
    decreases |more|
  {
    if more == [] {
      assert a + more == a && b + more == b;
    } else {
      hide SameOnce;
      var init, last := more[..|more| - 1], more[|more| - 1];
      SameOnceAppend(once, a, b, init);
      SameOnceMore(once, a + init, b + init, last);
      assert a + more == (a + init) + [last] && b + more == (b + init) + [last];
    }
  }

  /** A read adds nothing to them. */
  lemma SameOnceRead(once: set<Name>, a: seq<Leaf>, b: seq<Leaf>, leaf: Leaf)
    requires SameOnce(once, a, b) && leaf.name !in once
    ensures SameOnce(once, a + [leaf], b)
  {
    hide HasOnce, Extra;
    ExtraMore(once, a, leaf);
    forall o: nat ensures HasOnce(once, a + [leaf], o) <==> HasOnce(once, b, o) { HasOnceMore(once, a, leaf, o); }
  }

  lemma {:induction false} SameOnces<S>(sys: System<S>, subs: seq<Sub>, dup: map<int, int>, n: nat)
    requires n <= |subs| && ValidDup(dup, |subs|) && Led(sys.handlers, subs, dup) && OnceWrites(sys)
    requires ExpandAll(sys, subs, map[], n).Leaves? && ExpandAll(sys, subs, dup, n).Leaves?
    ensures SameOnce(sys.onePerBatch, ExpandAll(sys, subs, map[], n).leaves, ExpandAll(sys, subs, dup, n).leaves)
  {
    if n > 0 {
      hide Expand, ExpandAll, Led, SameOnce, Holds;
      ExpandStep(sys, subs, map[], n);
      ExpandStep(sys, subs, dup, n);
      SameOnces(sys, subs, dup, n - 1);
      var plain, kept := ExpandAll(sys, subs, map[], n - 1).leaves, ExpandAll(sys, subs, dup, n - 1).leaves;
      if n - 1 in dup {
        RepeatExpands(sys, subs, dup, n - 1);
        SameOnceRead(sys.onePerBatch, plain, kept, Leaf(n - 1, subs[n - 1].name, subs[n - 1].data, true));
      } else {
        SameOnceAppend(sys.onePerBatch, plain, kept, Expand(sys, n - 1, subs[n - 1]).leaves);
      }
    }
  }

  /** The checks before the transaction blame the same sub-request for the same
      reason, whether or not the repeats are among the leaves. */
  lemma SameStops<S>(sys: System<S>, w: Weather, passes: seq<Pass>, subs: seq<Sub>, dup: map<int, int>)
    requires ValidDup(dup, |subs|) && Led(sys.handlers, subs, dup) && LeafByLeaf(sys, passes) && OnceWrites(sys)
    ensures var plain, kept := ExpandAll(sys, subs, map[], |subs|), ExpandAll(sys, subs, dup, |subs|);
      if plain.Refused? then kept == plain
      else kept.Leaves? && StopsBefore(sys, w, kept.leaves) == StopsBefore(sys, w, plain.leaves)
  {
    hide ExpandAll, Led, Passed, Extra, HasOnce, OnceWrites;
    SameExpansion(sys, subs, dup, |subs|);
    var plain, kept := ExpandAll(sys, subs, map[], |subs|), ExpandAll(sys, subs, dup, |subs|);
    if plain.Leaves? {
      SamePassed(sys, passes, subs, dup);
      SameOnces(sys, subs, dup, |subs|);
    }
  }
}
