/**
 What each call does to a key's balance, told from the balance, its moment and
 the rate: who is let through, how deep a charge goes, when a spent key may
 come back, and who is listed as throttled.
 */
module RateRefill {
  import opened Prelude
  import opened RateLimit

  ghost predicate Smaller(x: real, a: real, b: real) {
    x <= a && x <= b && (x == a || x == b)
  }

  lemma HasPosition(lru: seq<Bucket>, i: nat)
    requires Distinct(lru) && i < |lru|
    ensures Position(lru, lru[i].key) == i
  {
  }

  lemma HasNone(lru: seq<Bucket>, key: string)
    requires forall i :: 0 <= i < |lru| ==> lru[i].key != key
    ensures Position(lru, key) == |lru|
  {
  }

  /** A call for a key that has a bucket.  `have` is what it holds by now: what it
      held and what it has earned since, but no more than the burst.  `Allow`
      takes the cost if and only if there is enough, `Charge` takes it down to
      minus the burst at most; the bucket moves to the front, the others stay. */
  lemma OwnBucket(c: Config, lru: seq<Bucket>, op: Op, i: nat, have: real)
    requires Distinct(lru) && i < |lru| && !op.Throttled? && op.key == lru[i].key
    requires Smaller(have, lru[i].tokens + (c.accrued(op.now) - c.accrued(lru[i].at)), c.burst)
    ensures op.Allow? ==> (Admits(c, lru, op) <==> op.cost <= have)
    ensures var after := Apply(c, lru, op);
      && |after| == |lru| && after[0].key == op.key && after[0].at == op.now && after[1..] == lru[..i] + lru[i + 1..]
      && (op.Allow? ==> after[0].tokens == if op.cost <= have then have - op.cost else have)
      && (op.Charge? ==> after[0].tokens == if have - op.cost < -c.burst then -c.burst else have - op.cost)
  {
    HasPosition(lru, i);
  }

  /** A call for a key without one.  It starts from a full bucket, and of the
      others only those used last stay, so that there are at most
      max(1, maxKeys). */
  lemma NewBucket(c: Config, lru: seq<Bucket>, op: Op)
    requires !op.Throttled? && forall i :: 0 <= i < |lru| ==> lru[i].key != op.key
    ensures op.Allow? ==> (Admits(c, lru, op) <==> op.cost <= c.burst)
    ensures var after := Apply(c, lru, op);
      && |after| == 1 + (if |lru| < c.maxKeys then |lru| else if c.maxKeys < 1 then 0 else c.maxKeys - 1)
      && after[0].key == op.key && after[0].at == op.now && after[1..] == lru[..|after| - 1]
      && (op.Allow? ==> after[0].tokens == if op.cost <= c.burst then c.burst - op.cost else c.burst)
      && (op.Charge? ==> after[0].tokens == if c.burst - op.cost < -c.burst then -c.burst else c.burst - op.cost)
  {
    HasNone(lru, op.key);
  }

  // --------------------------------------------------------------- coming back

  /** The bucket has what b would have, at any time from now on. */
  ghost predicate EarnsLike(c: Config, b: Bucket, a: Bucket, now: real) {
    b.key == a.key && b.at <= now && a.at <= now && forall u :: now <= u ==> Refill(c, b, u) == Refill(c, a, u)
  }

  lemma RefillEarnsLike(c: Config, b: Bucket, a: Bucket, t: real, u: real)
    requires c.Valid() && EarnsLike(c, b, a, t) && t <= u
    ensures EarnsLike(c, Refill(c, b, u), a, u) && EarnsLike(c, b, a, u)
  {
    forall v | u <= v ensures Refill(c, Refill(c, b, u), v) == Refill(c, a, v) { RefillTwice(c, b, u, v); }
  }

  /** A key's bucket while other keys are used: it stays what it was, only
      looked at (and refilled) now and then. */
  lemma {:induction false} Untouched(c: Config, lru: seq<Bucket>, ops: seq<Op>, b: Bucket, now: real) returns (j: nat)
    requires c.Valid() && Orderly(ops) && Distinct(lru) && b in lru && b.at <= now
    requires (ops != [] ==> now <= ops[0].now) && forall i :: 0 <= i < |ops| && !ops[i].Throttled? ==> ops[i].key != b.key
    requires Resident(c, lru, ops, b.key)
    ensures var after := Run(c, lru, ops);
      && Distinct(after) && j < |after| && EarnsLike(c, after[j], b, if ops == [] then now else Latest(ops))
  {
    if ops == [] {
      j :| 0 <= j < |lru| && lru[j] == b;
    } else {
      var init, last := ops[..|ops| - 1], ops[|ops| - 1];
      assert forall i | 0 <= i < |init| :: init[i] == ops[i];
      var i := Untouched(c, lru, init, b, now);
      var before := Run(c, lru, init);
      assert Keys(before)[i] == b.key;
      hide Run, EarnsLike;
      RunSplit(c, lru, ops, b.key);
      j := OneMore(c, before, last, i);
      SameOrRefilled(c, before[i], Apply(c, before, last)[j], b, if init == [] then now else Latest(init), last.now);
    }
  }

  lemma SameOrRefilled(c: Config, b: Bucket, b': Bucket, a: Bucket, t: real, u: real)
    requires c.Valid() && EarnsLike(c, b, a, t) && t <= u && (b' == b || b' == Refill(c, b, u))
    ensures EarnsLike(c, b', a, u)
  {
    RefillEarnsLike(c, b, a, t, u);
  }

  /** One call for another key, or a listing. */
  lemma OneMore(c: Config, lru: seq<Bucket>, op: Op, i: nat) returns (j: nat)
    requires Distinct(lru) && i < |lru| && (!op.Throttled? ==> op.key != lru[i].key)
    requires lru[i].key in Keys(Apply(c, lru, op))
    ensures var after := Apply(c, lru, op);
      && Distinct(after) && j < |after| && (after[j] == lru[i] || after[j] == Refill(c, lru[i], op.now))
  {
    hide Refill;
    ApplyDistinct(c, lru, op);
    if op.Throttled? {
      j := i;
    } else {
      ApplyKeys(c, lru, op);
      j := UseKeepsOthers(c, lru, op.key, op.now, i);
    }
  }

  lemma MovedApart(lru: seq<Bucket>, i: nat, b: Bucket)
    requires Distinct(lru) && i < |lru| && b.key == lru[i].key
    ensures Distinct([b] + lru[..i] + lru[i + 1..])
  {
    Shifted(b, lru, i);
  }

  lemma UseDistinct(c: Config, lru: seq<Bucket>, key: string, now: real)
    requires Distinct(lru)
    ensures Distinct(Use(c, lru, key, now))
  {
    hide Refill;
    var i := Position(lru, key);
    if i < |lru| {
      RefillAgain(c, lru[i], now);
      MovedApart(lru, i, Refill(c, lru[i], now));
    }
  }

  lemma ApplyDistinct(c: Config, lru: seq<Bucket>, op: Op)
    requires Distinct(lru)
    ensures Distinct(Apply(c, lru, op))
  {
    if !op.Throttled? {
      UseDistinct(c, lru, op.key, op.now);
      hide Use, Admits;
    }
  }

  /** How long a spent key waits.  While only other keys are used and it keeps its
      bucket, it is let through again exactly from the moment at which the time
      since its last use, times the rate, makes up for what is missing. */
  lemma ComesBack(perSec: real, burst: real, maxKeys: int, lru: seq<Bucket>, ops: seq<Op>, b: Bucket, cost: real, now: real)
    requires 0.0 <= perSec && 0.0 <= burst && Orderly(ops) && Distinct(lru) && b in lru && 0.0 <= cost <= burst
    requires b.at <= now && forall i :: 0 <= i < |ops| ==> b.at <= ops[i].now <= now
    requires forall i :: 0 <= i < |ops| && !ops[i].Throttled? ==> ops[i].key != b.key
    requires Resident(AtRate(perSec, burst, maxKeys), lru, ops, b.key)
    ensures var c := AtRate(perSec, burst, maxKeys);
      Admits(c, Run(c, lru, ops), Allow(b.key, cost, now)) <==> cost - b.tokens <= (now - b.at) * perSec
  {
    var c := AtRate(perSec, burst, maxKeys);
    SteadyRate(perSec, burst, maxKeys, b.at, now);
    var j := Untouched(c, lru, ops, b, b.at);
    var after := Run(c, lru, ops);
    assert Refill(c, after[j], now) == Refill(c, b, now);
    HasPosition(after, j);
    hide Run, Resident, Orderly;
  }

  /** So a key that has spent everything may make a call of that cost again after
      cost / rate seconds and not before. */
  lemma WaitsCostOverRate(perSec: real, burst: real, maxKeys: int, lru: seq<Bucket>, b: Bucket, cost: real, now: real)
    requires 0.0 < perSec && 0.0 < cost <= burst && Distinct(lru) && b in lru && b.tokens == 0.0 && b.at <= now
    ensures var c := AtRate(perSec, burst, maxKeys);
      Admits(c, lru, Allow(b.key, cost, now)) <==> now >= b.at + cost / perSec
  {
    var c := AtRate(perSec, burst, maxKeys);
    ComesBack(perSec, burst, maxKeys, lru, [], b, cost, now);
    assert Run(c, lru, []) == lru;
    OverRate(cost, perSec, now - b.at);
  }

  lemma OverRate(cost: real, rate: real, wait: real)
    requires 0.0 < rate
    ensures cost <= wait * rate <==> cost / rate <= wait
  {
    assert cost == cost / rate * rate;
    if cost / rate <= wait {
      Monotone(cost / rate, wait, rate);
    } else {
      assert (cost / rate - wait) * rate > 0.0;
    }
  }

  // ------------------------------------------------------------------ who is listed

  lemma {:induction false} StarvedAre(lru: seq<Bucket>)
    ensures forall key :: key in Starved(lru) <==> exists i :: 0 <= i < |lru| && lru[i].key == key && lru[i].tokens < 1.0
  {
    if lru != [] {
      var n := |lru| - 1;
      StarvedAre(lru[..n]);
      assert forall i | 0 <= i < n :: lru[..n][i] == lru[i];
      forall key | exists i :: 0 <= i < |lru| && lru[i].key == key && lru[i].tokens < 1.0 ensures key in Starved(lru) {
        var i :| 0 <= i < |lru| && lru[i].key == key && lru[i].tokens < 1.0;
        if i < n { assert lru[..n][i] == lru[i]; }
      }
    }
  }

  lemma StarvedLast(lru: seq<Bucket>)
    requires lru != []
    ensures var n := |lru| - 1;
      Starved(lru) == Starved(lru[..n]) + (if lru[n].tokens < 1.0 then [lru[n].key] else [])
  {
  }

  lemma {:induction false} StarvedOnce(lru: seq<Bucket>)
    requires Distinct(lru)
    ensures forall p, q :: 0 <= p < q < |Starved(lru)| ==> Starved(lru)[p] != Starved(lru)[q]
  {
    if lru != [] {
      var n := |lru| - 1;
      assert forall i | 0 <= i < n :: lru[..n][i] == lru[i];
      StarvedOnce(lru[..n]);
      StarvedAre(lru[..n]);
      hide Starved;
      assert lru[n].key !in Starved(lru[..n]);
      StarvedLast(lru);
    }
  }

  /** The throttled are those with a bucket whose next request, at the price of
      one, would be refused at that moment. */
  lemma ListedAreRefused(c: Config, lru: seq<Bucket>, now: real)
    requires Distinct(lru)
    ensures var listed := Starved(Apply(c, lru, Throttled(now)));
      && (forall key :: key in listed <==> key in Keys(lru) && !Admits(c, lru, Allow(key, 1.0, now)))
      && (forall p, q :: 0 <= p < q < |listed| ==> listed[p] != listed[q])
  {
    var after := Apply(c, lru, Throttled(now));
    assert Distinct(after);
    StarvedAre(after);
    StarvedOnce(after);
    forall key ensures key in Starved(after) <==> key in Keys(lru) && !Admits(c, lru, Allow(key, 1.0, now)) {
      ListedIsRefused(c, lru, now, key);
    }
    hide Starved, Admits, Apply;
  }

  lemma ListedIsRefused(c: Config, lru: seq<Bucket>, now: real, key: string)
    requires Distinct(lru)
    ensures key in Starved(RefillAll(c, lru, now)) <==> key in Keys(lru) && !Admits(c, lru, Allow(key, 1.0, now))
  {
    hide Starved, Admits;
    if i :| 0 <= i < |lru| && Keys(lru)[i] == key {
      AdmitsIs(c, lru, now, i);
      OneOfThem(RefillAll(c, lru, now), i);
    } else {
      StarvedAre(RefillAll(c, lru, now));
      assert forall j | 0 <= j < |lru| :: RefillAll(c, lru, now)[j].key == Keys(lru)[j];
    }
  }

  lemma AdmitsIs(c: Config, lru: seq<Bucket>, now: real, i: nat)
    requires Distinct(lru) && i < |lru|
    ensures Admits(c, lru, Allow(lru[i].key, 1.0, now)) <==> Refill(c, lru[i], now).tokens >= 1.0
  {
    HasPosition(lru, i);
    hide Refill, Position;
  }

  lemma OneOfThem(lru: seq<Bucket>, i: nat)
    requires Distinct(lru) && i < |lru|
    ensures lru[i].key in Starved(lru) <==> lru[i].tokens < 1.0
  {
    StarvedAre(lru);
    hide Starved;
  }

  // -------------------------------------------------------------- what is answered

  /** How many of the calls ask to be let through. */
  function Asked(ops: seq<Op>): nat {
    if ops == [] then 0 else Asked(ops[..|ops| - 1]) + (if ops[|ops| - 1].Allow? then 1 else 0)
  }

  /** One answer for each call that asks, as the buckets were at its moment. */
  lemma {:induction false} AnswersAre(c: Config, ops: seq<Op>, i: nat)
    requires i < |ops| && ops[i].Allow?
    ensures |Decisions(c, ops)| == Asked(ops) && Asked(ops[..i]) < Asked(ops)
    ensures Decisions(c, ops)[Asked(ops[..i])] == Admits(c, Run(c, [], ops[..i]), ops[i])
  {
    hide Admits, Run;
    var n := |ops| - 1;
    AnswersCounted(c, ops);
    AnswersCounted(c, ops[..n]);
    if i < n {
      AnswersAre(c, ops[..n], i);
      assert ops[..n][..i] == ops[..i];
    }
  }

  lemma {:induction false} AnswersCounted(c: Config, ops: seq<Op>)
    ensures |Decisions(c, ops)| == Asked(ops)
  {
    if ops != [] { AnswersCounted(c, ops[..|ops| - 1]); }
  }
}
