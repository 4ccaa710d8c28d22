/**
 When a key keeps its bucket, told from the calls alone, and the window bound
 for any stretch of calls in which it does.
 */
module RateWindow {
  import opened Prelude
  import opened RateLimit

  predicate Used(ops: seq<Op>, key: string) {
    exists k :: 0 <= k < |ops| && !ops[k].Throttled? && ops[k].key == key
  }

  /** The other keys used since key was last. */
  function UsedSince(ops: seq<Op>, key: string): set<string> {
    if ops == [] then {}
    else
      var before, last := UsedSince(ops[..|ops| - 1], key), ops[|ops| - 1];
      if last.Throttled? then before else if last.key == key then {} else before + {last.key}
  }

  ghost predicate RankIs(recent: seq<string>, key: string, since: set<string>, i: nat) {
    i < |recent| && recent[i] == key && forall x :: x in recent[..i] <==> x in since
  }

  predicate Different(s: seq<string>) {
    forall a, b :: 0 <= a < b < |s| ==> s[a] != s[b]
  }

  /** Another key moves to the front: it passes key, or was before it already. */
  lemma RankMoves(recent: seq<string>, key: string, since: set<string>, i: nat, other: string) returns (j: nat)
    requires Different(recent) && RankIs(recent, key, since, i) && other != key
    ensures RankIs([other] + Without(recent, other), key, since + {other}, j)
  {
    var all := [other] + Without(recent, other);
    if other in recent {
      var k :| 0 <= k < |recent| && recent[k] == other;
      WithoutAt(recent, k);
      assert all == [other] + recent[..k] + recent[k + 1..];
      if k < i {
        j := i;
        assert recent[..i] == recent[..k] + [other] + recent[k + 1..i];
        assert all[..i] == [other] + recent[..k] + recent[k + 1..i];
      } else {
        j := i + 1;
        assert all[..i + 1] == [other] + recent[..i];
      }
    } else {
      WithoutAbsent(recent, other);
      j := i + 1;
      assert all[..i + 1] == [other] + recent[..i];
    }
  }

  lemma {:induction false} Rank(ops: seq<Op>, key: string) returns (i: nat)
    requires Used(ops, key)
    ensures RankIs(Recent(ops), key, UsedSince(ops, key), i)
  {
    var init, last := ops[..|ops| - 1], ops[|ops| - 1];
    if !last.Throttled? && last.key == key {
      i := 0;
    } else {
      var k :| 0 <= k < |ops| && !ops[k].Throttled? && ops[k].key == key;
      assert init[k] == ops[k];
      i := Rank(init, key);
      if !last.Throttled? {
        RecentDistinct(init);
        i := RankMoves(Recent(init), key, UsedSince(init, key), i, last.key);
      }
    }
  }

  lemma {:induction false} NotUsed(ops: seq<Op>, key: string)
    requires !Used(ops, key)
    ensures key !in Recent(ops)
  {
    if ops != [] {
      var init, last := ops[..|ops| - 1], ops[|ops| - 1];
      forall k | 0 <= k < |init| ensures init[k].Throttled? || init[k].key != key { assert init[k] == ops[k]; }
      NotUsed(init, key);
      if !last.Throttled? { WithoutAdds(Recent(init), last.key, key); }
    }
  }

  lemma {:induction false} WithoutAdds(keys: seq<string>, key: string, other: string)
    requires other !in keys
    ensures other !in Without(keys, key)
  {
    if keys != [] {
      assert other != keys[0] && forall x :: x in keys[1..] ==> x in keys;
      WithoutAdds(keys[1..], key, other);
    }
  }

  lemma {:induction false} SizeOf(s: seq<string>, keys: set<string>)
    requires Different(s) && forall x :: x in s <==> x in keys
    ensures |keys| == |s|
  {
    if s == [] {
      assert keys == {};
    } else {
      var init, last := s[..|s| - 1], s[|s| - 1];
      forall x ensures x in init <==> x in keys - {last} {
        if x in init {
          var a :| 0 <= a < |init| && init[a] == x;
          assert s[a] == x;
        }
        if x in keys && x != last {
          var a :| 0 <= a < |s| && s[a] == x;
          assert init[a] == x;
        }
      }
      SizeOf(init, keys - {last});
    }
  }

  /** A key has a bucket exactly when it was used, and since then fewer other keys
      than there is room for. */
  lemma KeptExactly(c: Config, ops: seq<Op>, key: string)
    ensures key in Keys(Run(c, [], ops)) <==> Used(ops, key) && |UsedSince(ops, key)| < c.Capacity()
  {
    KeepsMostRecent(c, ops);
    hide Run, Recent, UsedSince, Keys;
    var recent := Recent(ops);
    if Used(ops, key) {
      var i := Rank(ops, key);
      RecentDistinct(ops);
      assert Different(recent[..i]);
      SizeOf(recent[..i], UsedSince(ops, key));
      InTake(recent, c.Capacity(), i);
    } else {
      NotUsed(ops, key);
    }
  }

  lemma InTake(s: seq<string>, n: nat, i: nat)
    requires i < |s| && Different(s)
    ensures s[i] in Take(s, n) <==> i < n
  {
    if i < n { assert Take(s, n)[i] == s[i]; }
  }

  /** At no time of the stretch have too many other keys been used since key was. */
  predicate Frequent(c: Config, past: seq<Op>, ops: seq<Op>, key: string) {
    forall n :: 0 <= n <= |ops| ==> |UsedSince(past + ops[..n], key)| < c.Capacity()
  }

  lemma FrequentPart(c: Config, past: seq<Op>, ops: seq<Op>, key: string)
    requires Frequent(c, past, ops, key) && ops != []
    ensures Frequent(c, past, ops[..|ops| - 1], key) && |UsedSince(past + ops, key)| < c.Capacity()
  {
    hide UsedSince;
    var init := ops[..|ops| - 1];
    assert ops[..|ops|] == ops;
    forall n | 0 <= n <= |init| ensures |UsedSince(past + init[..n], key)| < c.Capacity() { assert init[..n] == ops[..n]; }
  }

  lemma RunJoins(c: Config, past: seq<Op>, ops: seq<Op>)
    ensures Run(c, Run(c, [], past), ops) == Run(c, [], past + ops)
  {
    hide Apply;
    FoldAppend((l, op) => Apply(c, l, op), [], past, ops);
  }

  /** One more call takes no bucket from a key used often enough. */
  lemma StaysOver(c: Config, ops: seq<Op>, op: Op, key: string)
    requires |UsedSince(ops + [op], key)| < c.Capacity() && key in Keys(Run(c, [], ops))
    ensures key in Keys(Run(c, [], ops + [op]))
  {
    hide Run, UsedSince, Keys, Used;
    KeptExactly(c, ops, key);
    UsedStays(ops, op, key);
    KeptExactly(c, ops + [op], key);
  }

  lemma {:induction false} FrequentIsResident(c: Config, past: seq<Op>, ops: seq<Op>, key: string)
    requires Frequent(c, past, ops, key)
    ensures Resident(c, Run(c, [], past), ops, key)
  {
    if ops != [] {
      hide Run, UsedSince, Keys, Frequent, Resident;
      FrequentPart(c, past, ops, key);
      FrequentIsResident(c, past, ops[..|ops| - 1], key);
      StaysResident(c, past, ops, key);
    }
  }

  lemma StaysResident(c: Config, past: seq<Op>, ops: seq<Op>, key: string)
    requires ops != [] && |UsedSince(past + ops, key)| < c.Capacity()
    requires Resident(c, Run(c, [], past), ops[..|ops| - 1], key)
    ensures Resident(c, Run(c, [], past), ops, key)
  {
    hide Run, UsedSince, Keys;
    var init, last := ops[..|ops| - 1], ops[|ops| - 1];
    RunJoins(c, past, init);
    RunJoins(c, past, ops);
    Regrouped(past, ops);
    if key in Keys(Run(c, [], past + init)) { StaysOver(c, past + init, last, key); }
  }

  lemma Regrouped(past: seq<Op>, ops: seq<Op>)
    requires ops != []
    ensures past + ops == (past + ops[..|ops| - 1]) + [ops[|ops| - 1]]
  {
  }

  lemma UsedStays(ops: seq<Op>, op: Op, key: string)
    requires Used(ops, key)
    ensures Used(ops + [op], key)
  {
    var k :| 0 <= k < |ops| && !ops[k].Throttled? && ops[k].key == key;
    assert (ops + [op])[k] == ops[k];
  }

  /** So over any stretch of any run in which fewer other keys than there is room
      for come between two uses of key, `Allow` lets through at most the burst and
      what the stretch earned. */
  lemma FrequentWindow(c: Config, past: seq<Op>, ops: seq<Op>, key: string)
    requires c.Valid() && Orderly(past + ops) && ops != [] && Frequent(c, past, ops, key)
    ensures Admitted(c, Run(c, [], past), ops, key) <= c.burst + (c.accrued(Latest(ops)) - c.accrued(ops[0].now))
  {
    hide Run, Admitted, Resident, Frequent;
    OrderlyParts(past, ops);
    PastIsSound(c, past, ops[0].now);
    FrequentIsResident(c, past, ops, key);
    WindowBound(c, Run(c, [], past), ops, key);
  }

  lemma OrderlyParts(past: seq<Op>, ops: seq<Op>)
    requires Orderly(past + ops)
    ensures Orderly(past) && Orderly(ops) && (past != [] && ops != [] ==> Latest(past) <= ops[0].now)
  {
    var all := past + ops;
    assert forall k | 0 <= k < |past| :: all[k] == past[k];
    assert forall k | 0 <= k < |ops| :: all[|past| + k] == ops[k];
  }

  lemma PastIsSound(c: Config, past: seq<Op>, now: real)
    requires c.Valid() && Orderly(past) && (past != [] ==> Latest(past) <= now)
    ensures Sound(c, Run(c, [], past), now)
  {
    if past != [] { RunIsSound(c, past); }
  }
}
