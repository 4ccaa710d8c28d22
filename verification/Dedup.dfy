/**
 Repeated reads of one batch: which sub-requests count as repeats of which, and
 when running only the first of them cannot be told from running all.
 */
module Dedup {
  datatype Name = Name(endpoint: string, action: string)
  datatype Sub = Sub(id: string, name: Name, data: string, key: string, reference: string)

  /** Registered handlers, and whether each only reads. */
  type Registry = map<Name, bool>

  predicate IsRead(handlers: Registry, n: Name) {
    n in handlers && handlers[n]
  }

  predicate Eligible(handlers: Registry, s: Sub) {
    s.key == "" && s.reference == "" && IsRead(handlers, s.name)
  }

  function SeenKey(s: Sub): string {
    s.name.endpoint + "\0" + s.name.action + "\0" + s.data
  }

  /** No registered name holds the separator. */
  ghost predicate PlainNames(handlers: Registry) {
    forall n :: n in handlers ==> Plain(n.endpoint) && Plain(n.action)
  }

  predicate Plain(s: string) {
    '\0' !in s
  }

  predicate SameRead(a: Sub, b: Sub) {
    a.name == b.name && a.data == b.data
  }

  /** A plain prefix ends where the separator first is. */
  lemma SplitAtSeparator(a: string, b: string, x: string, y: string)
    requires Plain(a) && Plain(b) && a + "\0" + x == b + "\0" + y
    ensures a == b && x == y
  {
    var s := a + "\0" + x;
    assert s[|a|] == '\0' && s[|b|] == '\0';
    assert forall k | 0 <= k < |a| :: s[k] == a[k] && a[k] != '\0';
    assert forall k | 0 <= k < |b| :: s[k] == b[k] && b[k] != '\0';
    assert |a| == |b|;
    assert s[..|a|] == a && s[..|b|] == b && s[|a| + 1..] == x && s[|b| + 1..] == y;
  }

  /** Equal keys mean equal reads: two different requests are never merged. */
  lemma KeysTellReadsApart(handlers: Registry, a: Sub, b: Sub)
    requires PlainNames(handlers) && a.name in handlers && b.name in handlers
    ensures SeenKey(a) == SeenKey(b) <==> SameRead(a, b)
  {
    if SeenKey(a) == SeenKey(b) {
      var x, y := a.name.action + "\0" + a.data, b.name.action + "\0" + b.data;
      assert SeenKey(a) == a.name.endpoint + "\0" + x && SeenKey(b) == b.name.endpoint + "\0" + y;
      SplitAtSeparator(a.name.endpoint, b.name.endpoint, x, y);
      SplitAtSeparator(a.name.action, b.name.action, a.data, b.data);
    }
  }

  /** l is the first eligible sub-request that reads what i reads. */
  ghost predicate Leads(handlers: Registry, subs: seq<Sub>, l: int, i: int) {
    && 0 <= l < i < |subs| && Eligible(handlers, subs[l]) && Eligible(handlers, subs[i]) && SameRead(subs[l], subs[i])
    && forall j :: 0 <= j < l ==> !(Eligible(handlers, subs[j]) && SameRead(subs[j], subs[i]))
  }

  ghost predicate Repeats(handlers: Registry, subs: seq<Sub>, i: int) {
    0 <= i < |subs| && Eligible(handlers, subs[i]) &&
    exists j :: 0 <= j < i && Eligible(handlers, subs[j]) && SameRead(subs[j], subs[i])
  }

  /** `seen` holds the first occurrence of every read among the first n. */
  ghost predicate Firsts(handlers: Registry, subs: seq<Sub>, seen: map<string, int>, n: int)
    requires 0 <= n <= |subs|
  {
    && (forall k :: k in seen ==>
         0 <= seen[k] < n && Eligible(handlers, subs[seen[k]]) && SeenKey(subs[seen[k]]) == k)
    && (forall j :: 0 <= j < n && Eligible(handlers, subs[j]) ==>
         SeenKey(subs[j]) in seen && seen[SeenKey(subs[j])] <= j)
  }

  /** dedupReadSubrequests: every repeat, and no other, is mapped to the first. */
  method DedupReads(handlers: Registry, subs: seq<Sub>) returns (dup: map<int, int>)
    requires PlainNames(handlers)
    ensures forall i :: i in dup <==> Repeats(handlers, subs, i)
    ensures forall i :: i in dup ==> Leads(handlers, subs, dup[i], i)
    ensures forall i :: i in dup ==> RepeatsPlainly(handlers, subs, dup[i], i)
    ensures forall j, i :: RepeatsPlainly(handlers, subs, j, i) ==> i in dup && dup[i] <= j
    ensures forall i :: i in dup ==> dup[i] !in dup
  {
    hide Firsts, Repeats, Leads, SeenKey, RepeatsPlainly;
    dup := map[];
    var seen: map<string, int> := map[];
    Nothing(handlers, subs);
    for i := 0 to |subs|
      invariant Firsts(handlers, subs, seen, i)
      invariant forall j :: j in dup <==> j < i && Repeats(handlers, subs, j)
      invariant forall j :: j in dup ==> Leads(handlers, subs, dup[j], j)
    {
      var s := subs[i];
      if s.key == "" && s.reference == "" && IsRead(handlers, s.name) {
        SeenMeansRepeat(handlers, subs, seen, i);
        OneMore(handlers, subs, seen, i);
        if SeenKey(s) in seen {
          dup := dup[i := seen[SeenKey(s)]];
        } else {
          seen := seen[SeenKey(s) := i];
        }
      } else {
        NotARead(handlers, subs, seen, i);
      }
    }
    forall i | i in dup ensures Repeats(handlers, subs, i) && dup[i] !in dup {
      LeadersLead(handlers, subs, dup[i], i);
    }
    NoneBeyond(handlers, subs);
    forall i | i in dup ensures RepeatsPlainly(handlers, subs, dup[i], i) { LeadsPlainly(handlers, subs, dup[i], i); }
    forall j, i | RepeatsPlainly(handlers, subs, j, i) ensures i in dup && dup[i] <= j {
      PlainlyRepeats(handlers, subs, j, i);
      if i in dup { LeadsAll(handlers, subs, dup[i], j, i); }
    }
  }

  /** The same read twice, neither keyed nor referred to. */
  predicate RepeatsPlainly(handlers: Registry, subs: seq<Sub>, j: int, i: int) {
    && 0 <= j < i < |subs| && subs[i].name in handlers && handlers[subs[i].name]
    && subs[j].name == subs[i].name && subs[j].data == subs[i].data
    && subs[j].key == "" && subs[j].reference == "" && subs[i].key == "" && subs[i].reference == ""
  }

  lemma LeadsPlainly(handlers: Registry, subs: seq<Sub>, l: int, i: int)
    requires Leads(handlers, subs, l, i)
    ensures RepeatsPlainly(handlers, subs, l, i)
  {
  }

  lemma PlainlyRepeats(handlers: Registry, subs: seq<Sub>, j: int, i: int)
    requires RepeatsPlainly(handlers, subs, j, i)
    ensures Repeats(handlers, subs, i)
  {
  }

  lemma LeadsAll(handlers: Registry, subs: seq<Sub>, l: int, j: int, i: int)
    requires Leads(handlers, subs, l, i) && RepeatsPlainly(handlers, subs, j, i)
    ensures l <= j
  {
  }

  lemma Nothing(handlers: Registry, subs: seq<Sub>)
    ensures Firsts(handlers, subs, map[], 0) && forall i :: i < 0 ==> !Repeats(handlers, subs, i)
  {
  }

  lemma NoneBeyond(handlers: Registry, subs: seq<Sub>)
    ensures forall i :: i >= |subs| ==> !Repeats(handlers, subs, i)
  {
  }

  lemma LeadersLead(handlers: Registry, subs: seq<Sub>, l: int, i: int)
    requires Leads(handlers, subs, l, i)
    ensures Repeats(handlers, subs, i) && !Repeats(handlers, subs, l)
  {
  }

  lemma NotARead(handlers: Registry, subs: seq<Sub>, seen: map<string, int>, i: int)
    requires 0 <= i < |subs| && Firsts(handlers, subs, seen, i) && !Eligible(handlers, subs[i])
    ensures Firsts(handlers, subs, seen, i + 1) && !Repeats(handlers, subs, i)
  {
    hide SeenKey;
  }

  lemma OneMore(handlers: Registry, subs: seq<Sub>, seen: map<string, int>, i: int)
    requires 0 <= i < |subs| && Firsts(handlers, subs, seen, i) && Eligible(handlers, subs[i])
    ensures var k := SeenKey(subs[i]);
      if k in seen then Firsts(handlers, subs, seen, i + 1) else Firsts(handlers, subs, seen[k := i], i + 1)
  {
    hide SeenKey;
  }

  lemma SeenMeansRepeat(handlers: Registry, subs: seq<Sub>, seen: map<string, int>, i: int)
    requires PlainNames(handlers) && 0 <= i < |subs| && Firsts(handlers, subs, seen, i) && Eligible(handlers, subs[i])
    ensures SeenKey(subs[i]) in seen <==> Repeats(handlers, subs, i)
    ensures SeenKey(subs[i]) in seen ==> Leads(handlers, subs, seen[SeenKey(subs[i])], i)
  {
    var k := SeenKey(subs[i]);
    forall j | 0 <= j < i && Eligible(handlers, subs[j])
      ensures SeenKey(subs[j]) == k <==> SameRead(subs[j], subs[i])
    {
      KeysTellReadsApart(handlers, subs[j], subs[i]);
    }
  }

  // ------------------------------------------------------- when it cannot be told

  /** One leaf run: what it answers and the state it leaves. */
  datatype Ran<S> = Ran(state: S, out: string)

  type Handler<!S> = (Name, string, S) -> Ran<S>

  function After<S>(run: Handler<S>, s: S, subs: seq<Sub>): S {
    if subs == [] then s
    else
      var last := subs[|subs| - 1];
      run(last.name, last.data, After(run, s, subs[..|subs| - 1])).state
  }

  /** The i-th answer when every sub-request runs. */
  function Answer<S>(run: Handler<S>, s: S, subs: seq<Sub>, i: nat): string
    requires i < |subs|
  {
    run(subs[i].name, subs[i].data, After(run, s, subs[..i])).out
  }

  ghost predicate ReadsArePure<S(!new)>(handlers: Registry, run: Handler<S>) {
    forall n, data, s :: IsRead(handlers, n) ==> run(n, data, s).state == s
  }

  predicate OnlyReadsBetween(handlers: Registry, subs: seq<Sub>, l: int, i: int) {
    forall k :: l < k < i && 0 <= k < |subs| ==> IsRead(handlers, subs[k].name)
  }

  lemma {:induction false} ReadsKeepState<S(!new)>(handlers: Registry, run: Handler<S>, s: S, subs: seq<Sub>, l: nat, i: nat)
    requires ReadsArePure(handlers, run) && l <= i <= |subs|
    requires forall k :: l <= k < i ==> IsRead(handlers, subs[k].name)
    ensures After(run, s, subs[..i]) == After(run, s, subs[..l])
  {
    if l < i {
      ReadsKeepState(handlers, run, s, subs, l, i - 1);
      assert subs[..i][..i - 1] == subs[..i - 1];
    }
  }

  /** A repeat answers what its leader answered, if only reads lie between. */
  lemma RepeatAnswersAlike<S(!new)>(handlers: Registry, run: Handler<S>, s: S, subs: seq<Sub>, l: nat, i: nat)
    requires ReadsArePure(handlers, run) && Leads(handlers, subs, l, i) && OnlyReadsBetween(handlers, subs, l, i)
    ensures Answer(run, s, subs, i) == Answer(run, s, subs, l)
  {
    ReadsKeepState(handlers, run, s, subs, l, i);
  }

  /** Every repeat is left out. */
  function Kept(dup: set<int>, subs: seq<Sub>): seq<Sub> {
    if subs == [] then []
    else Kept(dup, subs[..|subs| - 1]) + (if |subs| - 1 in dup then [] else [subs[|subs| - 1]])
  }

  /** Leaving reads out never changes the state. */
  lemma {:induction false} LeftOutKeepsState<S(!new)>(handlers: Registry, run: Handler<S>, s: S, dup: set<int>, subs: seq<Sub>)
    requires ReadsArePure(handlers, run)
    requires forall i :: i in dup && 0 <= i < |subs| ==> IsRead(handlers, subs[i].name)
    ensures After(run, s, Kept(dup, subs)) == After(run, s, subs)
  {
    if subs != [] {
      var init, last := subs[..|subs| - 1], subs[|subs| - 1];
      assert forall i | i in dup && 0 <= i < |init| :: subs[i] == init[i];
      LeftOutKeepsState(handlers, run, s, dup, init);
      assert After(run, s, subs) == run(last.name, last.data, After(run, s, init)).state;
      assert |init| in dup ==> IsRead(handlers, last.name);
      if |init| in dup { assert Kept(dup, init) + [] == Kept(dup, init); }
      if |init| !in dup { assert (Kept(dup, init) + [last])[..|Kept(dup, init)|] == Kept(dup, init); }
    }
  }

  /** Whatever the handlers do, the repeat answers what its leader does. */
  ghost predicate CannotBeTold(handlers: Registry, subs: seq<Sub>, l: nat, i: nat)
    requires l < |subs| && i < |subs|
  {
    forall run: Handler<nat>, s :: ReadsArePure(handlers, run) ==> Answer(run, s, subs, i) == Answer(run, s, subs, l)
  }

  /** Writes count themselves, reads tell the count. */
  function Counting(handlers: Registry): Handler<nat> {
    (n: Name, data: string, s: nat) =>
      if IsRead(handlers, n) then Ran(s, seq(s, k => 'x')) else Ran(s + 1, "")
  }

  lemma {:induction false} CountGrows(handlers: Registry, subs: seq<Sub>, l: nat, i: nat)
    requires l <= i <= |subs|
    ensures After(Counting(handlers), 0, subs[..l]) <= After(Counting(handlers), 0, subs[..i])
    ensures (exists k :: l <= k < i && !IsRead(handlers, subs[k].name)) ==>
      After(Counting(handlers), 0, subs[..l]) < After(Counting(handlers), 0, subs[..i])
  {
    if l < i {
      CountGrows(handlers, subs, l, i - 1);
      assert subs[..i][..i - 1] == subs[..i - 1];
    }
  }

  /** Dedup is invisible exactly when no write lies between; the source does not
      look, so a batch that reads, writes and reads again gets the old answer twice. */
  lemma DedupIsExact(handlers: Registry, subs: seq<Sub>, l: nat, i: nat)
    requires Leads(handlers, subs, l, i)
    ensures CannotBeTold(handlers, subs, l, i) <==> OnlyReadsBetween(handlers, subs, l, i)
  {
    if OnlyReadsBetween(handlers, subs, l, i) {
      forall run: Handler<nat>, s | ReadsArePure(handlers, run)
        ensures Answer(run, s, subs, i) == Answer(run, s, subs, l)
      {
        RepeatAnswersAlike(handlers, run, s, subs, l, i);
      }
    } else {
      var run := Counting(handlers);
      CountGrows(handlers, subs, l, i);
      assert ReadsArePure(handlers, run);
      assert |Answer(run, 0, subs, i)| > |Answer(run, 0, subs, l)|;
    }
  }
}
