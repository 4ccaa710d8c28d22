/**
 Token buckets with least-recently-used eviction, on values: the list of
 buckets (most recently used first) and what each call does to it.
 */
module RateLimit {
  import opened Prelude

  datatype Bucket = Bucket(key: string, tokens: real, at: real)

  /** `accrued(t)` is what a bucket earns by time t; only its growth matters. */
  datatype Config = Config(accrued: real -> real, burst: real, maxKeys: int) {
    ghost predicate Valid() {
      0.0 <= burst && forall t, u :: t <= u ==> accrued(t) <= accrued(u)
    }

    /** How many buckets there can be. */
    function Capacity(): nat {
      if maxKeys < 1 then 1 else maxKeys
    }
  }

  /** A steady rate, as NewLimiter sets it up. */
  function AtRate(perSec: real, burst: real, maxKeys: int): Config {
    Config((t: real) => t * perSec, burst, maxKeys)
  }

  datatype Op =
    | Allow(key: string, cost: real, now: real)
    | Charge(key: string, cost: real, now: real)
    | Throttled(now: real)

  function Min(a: real, b: real): real {
    if a > b then b else a
  }

  function Max(a: real, b: real): real {
    if a < b then b else a
  }

  function Refill(c: Config, b: Bucket, now: real): Bucket {
    b.(tokens := Min(b.tokens + (c.accrued(now) - c.accrued(b.at)), c.burst), at := now)
  }

  function RefillAll(c: Config, lru: seq<Bucket>, now: real): (r: seq<Bucket>)
    ensures |r| == |lru| && forall i :: 0 <= i < |lru| ==> r[i] == Refill(c, lru[i], now)
  {
    if lru == [] then [] else [Refill(c, lru[0], now)] + RefillAll(c, lru[1..], now)
  }

  /** Where key's bucket is; the length of the list when it has none. */
  function Position(lru: seq<Bucket>, key: string): (i: nat)
    ensures i <= |lru| && (i < |lru| ==> lru[i].key == key)
    ensures forall j :: 0 <= j < i ==> lru[j].key != key
  {
    if lru == [] || lru[0].key == key then 0 else 1 + Position(lru[1..], key)
  }

  /** What stays when a new bucket needs room. */
  function Evict(c: Config, lru: seq<Bucket>): seq<Bucket> {
    if |lru| > c.Capacity() - 1 then lru[..c.Capacity() - 1] else lru
  }

  /** key's bucket, refilled or new, at the front. */
  function Use(c: Config, lru: seq<Bucket>, key: string, now: real): (r: seq<Bucket>)
    ensures r != [] && r[0].key == key
  {
    var i := Position(lru, key);
    if i < |lru| then [Refill(c, lru[i], now)] + lru[..i] + lru[i + 1..]
    else [Bucket(key, c.burst, now)] + Evict(c, lru)
  }

  predicate Admits(c: Config, lru: seq<Bucket>, op: Op) {
    op.Allow? && op.cost <= Use(c, lru, op.key, op.now)[0].tokens
  }

  function Apply(c: Config, lru: seq<Bucket>, op: Op): seq<Bucket> {
    match op
    case Allow(key, cost, now) =>
      var used := Use(c, lru, key, now);
      if Admits(c, lru, op) then used[0 := used[0].(tokens := used[0].tokens - cost)] else used
    case Charge(key, cost, now) =>
      var used := Use(c, lru, key, now);
      used[0 := used[0].(tokens := Max(used[0].tokens - cost, -c.burst))]
    case Throttled(now) => RefillAll(c, lru, now)
  }

  /** The keys that could not make a request, in list order. */
  function Starved(lru: seq<Bucket>): seq<string> {
    if lru == [] then []
    else
      var last := lru[|lru| - 1];
      Starved(lru[..|lru| - 1]) + (if last.tokens < 1.0 then [last.key] else [])
  }

  lemma ApplyAllow(c: Config, lru: seq<Bucket>, key: string, cost: real, now: real)
    ensures var used := Use(c, lru, key, now);
      && Admits(c, lru, Allow(key, cost, now)) == !(used[0].tokens < cost)
      && Apply(c, lru, Allow(key, cost, now)) ==
           if used[0].tokens < cost then used else used[0 := used[0].(tokens := used[0].tokens - cost)]
  {
  }

  lemma ApplyCharge(c: Config, lru: seq<Bucket>, key: string, cost: real, now: real)
    ensures var used := Use(c, lru, key, now);
      Apply(c, lru, Charge(key, cost, now)) ==
        used[0 := used[0].(tokens := if used[0].tokens - cost < -c.burst then -c.burst else used[0].tokens - cost)]
  {
  }

  function Run(c: Config, lru: seq<Bucket>, ops: seq<Op>): seq<Bucket> {
    Fold((l, op) => Apply(c, l, op), lru, ops)
  }

  /** Costs are not negative and the clock does not go back. */
  predicate Orderly(ops: seq<Op>) {
    && (forall i :: 0 <= i < |ops| && !ops[i].Throttled? ==> 0.0 <= ops[i].cost)
    && (forall i, j :: 0 <= i < j < |ops| ==> ops[i].now <= ops[j].now)
  }

  // ----------------------------------------------------------------- invariant

  ghost predicate Distinct(lru: seq<Bucket>) {
    forall i, j :: 0 <= i < j < |lru| ==> lru[i].key != lru[j].key
  }

  ghost predicate Sound(c: Config, lru: seq<Bucket>, now: real) {
    && Distinct(lru) && |lru| <= c.Capacity()
    && (forall i :: 0 <= i < |lru| ==> -c.burst <= lru[i].tokens <= c.burst && lru[i].at <= now)
  }

  lemma RefillBounds(c: Config, b: Bucket, now: real)
    requires c.Valid() && b.at <= now && -c.burst <= b.tokens <= c.burst
    ensures -c.burst <= b.tokens <= Refill(c, b, now).tokens <= c.burst
  {
  }

  lemma UseKeepsSound(c: Config, lru: seq<Bucket>, key: string, now: real)
    requires c.Valid() && Sound(c, lru, now)
    ensures Sound(c, Use(c, lru, key, now), now)
  {
    var i := Position(lru, key);
    if i < |lru| {
      RefillBounds(c, lru[i], now);
    }
  }

  lemma ApplyKeepsSound(c: Config, lru: seq<Bucket>, op: Op)
    requires c.Valid() && Sound(c, lru, op.now) && (!op.Throttled? ==> 0.0 <= op.cost)
    ensures Sound(c, Apply(c, lru, op), op.now)
  {
    if op.Throttled? {
      forall i | 0 <= i < |lru| ensures -c.burst <= Apply(c, lru, op)[i].tokens <= c.burst {
        RefillBounds(c, lru[i], op.now);
      }
    } else {
      UseKeepsSound(c, lru, op.key, op.now);
    }
  }

  function Latest(ops: seq<Op>): real
    requires ops != []
  {
    ops[|ops| - 1].now
  }

  /** Over any run: one bucket a key, no more than fit, every balance in range. */
  lemma {:induction false} RunIsSound(c: Config, ops: seq<Op>)
    requires c.Valid() && Orderly(ops) && ops != []
    ensures Sound(c, Run(c, [], ops), Latest(ops))
  {
    var init, last := ops[..|ops| - 1], ops[|ops| - 1];
    if init != [] { RunIsSound(c, init); }
    ApplyKeepsSound(c, Run(c, [], init), last);
  }

  // -------------------------------------------------- least recently used first

  function Without(keys: seq<string>, key: string): seq<string> {
    if keys == [] then []
    else (if keys[0] == key then [] else [keys[0]]) + Without(keys[1..], key)
  }

  /** Every key a run has used, the last used first. */
  function Recent(ops: seq<Op>): seq<string> {
    if ops == [] then []
    else
      var before, last := Recent(ops[..|ops| - 1]), ops[|ops| - 1];
      if last.Throttled? then before else [last.key] + Without(before, last.key)
  }

  function Keys(lru: seq<Bucket>): (r: seq<string>)
    ensures |r| == |lru| && forall i :: 0 <= i < |r| ==> r[i] == lru[i].key
  {
    seq(|lru|, i requires 0 <= i < |lru| => lru[i].key)
  }

  function Take(s: seq<string>, n: nat): seq<string> {
    if |s| <= n then s else s[..n]
  }

  lemma {:induction false} WithoutAbsent(keys: seq<string>, key: string)
    requires key !in keys
    ensures Without(keys, key) == keys
  {
    if keys != [] { WithoutAbsent(keys[1..], key); }
  }

  lemma {:induction false} WithoutAt(keys: seq<string>, i: nat)
    requires i < |keys| && forall a, b :: 0 <= a < b < |keys| ==> keys[a] != keys[b]
    ensures Without(keys, keys[i]) == keys[..i] + keys[i + 1..]
  {
    var rest := keys[1..];
    assert forall a, b | 0 <= a < b < |rest| :: rest[a] == keys[a + 1] && rest[b] == keys[b + 1];
    if i == 0 {
      WithoutAbsent(rest, keys[0]);
      assert keys[..0] + rest == rest;
    } else {
      hide Without;
      WithoutAt(rest, i - 1);
      WithoutFirst(keys, rest[i - 1]);
      CutAt(keys, i);
    }
  }

  lemma WithoutFirst(keys: seq<string>, key: string)
    requires keys != [] && keys[0] != key
    ensures Without(keys, key) == [keys[0]] + Without(keys[1..], key)
  {
  }

  lemma CutAt(keys: seq<string>, i: nat)
    requires 0 < i < |keys|
    ensures [keys[0]] + (keys[1..][..i - 1] + keys[1..][i..]) == keys[..i] + keys[i + 1..]
  {
  }

  /** Where the k-th of a list was before its i-th moved to the front. */
  function Was(i: nat, k: nat): nat {
    if k == 0 then i else if k <= i then k - 1 else k
  }

  lemma Moved<T>(s: seq<T>, i: nat)
    requires i < |s|
    ensures var moved := [s[i]] + s[..i] + s[i + 1..];
      |moved| == |s| && forall k :: 0 <= k < |s| ==> 0 <= Was(i, k) < |s| && moved[k] == s[Was(i, k)]
  {
  }

  lemma MovedDistinct(keys: seq<string>, i: nat)
    requires i < |keys| && forall a, b :: 0 <= a < b < |keys| ==> keys[a] != keys[b]
    ensures var moved := [keys[i]] + (keys[..i] + keys[i + 1..]);
      forall a, b :: 0 <= a < b < |moved| ==> moved[a] != moved[b]
  {
    Moved(keys, i);
    assert [keys[i]] + (keys[..i] + keys[i + 1..]) == [keys[i]] + keys[..i] + keys[i + 1..];
  }

  lemma {:induction false} RecentDistinct(ops: seq<Op>)
    ensures forall a, b :: 0 <= a < b < |Recent(ops)| ==> Recent(ops)[a] != Recent(ops)[b]
  {
    if ops != [] {
      var before, last := Recent(ops[..|ops| - 1]), ops[|ops| - 1];
      RecentDistinct(ops[..|ops| - 1]);
      hide Recent, Without;
      if !last.Throttled? {
        if last.key in before {
          var i :| 0 <= i < |before| && before[i] == last.key;
          WithoutAt(before, i);
          MovedDistinct(before, i);
        } else {
          WithoutAbsent(before, last.key);
        }
      }
    }
  }

  lemma TakeAfterHit(recent: seq<string>, n: nat, i: nat)
    requires i < n && i < |recent|
    ensures Take([recent[i]] + recent[..i] + recent[i + 1..], n)
      == [recent[i]] + Take(recent, n)[..i] + Take(recent, n)[i + 1..]
  {
    var moved := [recent[i]] + recent[..i] + recent[i + 1..];
    assert |recent| > n ==> moved[..n] == [recent[i]] + recent[..i] + recent[i + 1..n];
  }

  lemma TakeAfterMiss(recent: seq<string>, rest: seq<string>, key: string, n: nat)
    requires n >= 1
    requires |recent| < n ==> rest == recent
    requires |recent| >= n ==> |rest| >= n - 1 && rest[..n - 1] == recent[..n - 1]
    ensures Take([key] + rest, n) == [key] + Take(Take(recent, n), n - 1)
  {
    assert |recent| >= n ==> ([key] + rest)[..n] == [key] + rest[..n - 1];
    assert |recent| >= n ==> recent[..n][..n - 1] == recent[..n - 1];
  }

  lemma KeysAppend(a: seq<Bucket>, b: seq<Bucket>)
    ensures Keys(a + b) == Keys(a) + Keys(b)
  {
  }

  lemma KeysSlice(lru: seq<Bucket>, i: nat, j: nat)
    requires i <= j <= |lru|
    ensures Keys(lru[i..j]) == Keys(lru)[i..j]
  {
  }

  lemma KeysAfterHit(c: Config, lru: seq<Bucket>, key: string, now: real)
    requires Position(lru, key) < |lru|
    ensures var i, keys := Position(lru, key), Keys(lru);
      Keys(Use(c, lru, key, now)) == [key] + keys[..i] + keys[i + 1..]
  {
    hide Refill, Position;
    var i := Position(lru, key);
    KeysAppend([Refill(c, lru[i], now)], lru[..i]);
    KeysAppend([Refill(c, lru[i], now)] + lru[..i], lru[i + 1..]);
    KeysSlice(lru, 0, i);
    KeysSlice(lru, i + 1, |lru|);
  }

  lemma HitMovesToFront(c: Config, lru: seq<Bucket>, recent: seq<string>, key: string, now: real)
    requires Keys(lru) == Take(recent, c.Capacity()) && Position(lru, key) < |lru|
    requires forall a, b :: 0 <= a < b < |recent| ==> recent[a] != recent[b]
    ensures Keys(Use(c, lru, key, now)) == Take([key] + Without(recent, key), c.Capacity())
  {
    var i := Position(lru, key);
    KeysAfterHit(c, lru, key, now);
    assert Keys(lru)[i] == key;
    TakeWithoutHit(recent, c.Capacity(), i);
  }

  lemma TakeWithoutHit(recent: seq<string>, n: nat, i: nat)
    requires i < |Take(recent, n)|
    requires forall a, b :: 0 <= a < b < |recent| ==> recent[a] != recent[b]
    ensures Take([recent[i]] + Without(recent, recent[i]), n)
      == [recent[i]] + Take(recent, n)[..i] + Take(recent, n)[i + 1..]
  {
    WithoutAt(recent, i);
    TakeAfterHit(recent, n, i);
    Regroup([recent[i]], recent[..i], recent[i + 1..]);
  }

  lemma Regroup(a: seq<string>, b: seq<string>, d: seq<string>)
    ensures a + (b + d) == a + b + d
  {
  }

  lemma KeysAfterMiss(c: Config, lru: seq<Bucket>, key: string, now: real)
    requires Position(lru, key) == |lru|
    ensures Keys(Use(c, lru, key, now)) == [key] + Take(Keys(lru), c.Capacity() - 1)
    ensures key !in Keys(lru)
  {
    hide Refill, Position;
    KeysAppend([Bucket(key, c.burst, now)], Evict(c, lru));
    KeysSlice(lru, 0, |Evict(c, lru)|);
    assert Evict(c, lru) == lru[0..|Evict(c, lru)|];
  }

  lemma MissMovesToFront(c: Config, lru: seq<Bucket>, recent: seq<string>, key: string, now: real)
    requires Keys(lru) == Take(recent, c.Capacity()) && Position(lru, key) == |lru|
    requires forall a, b :: 0 <= a < b < |recent| ==> recent[a] != recent[b]
    ensures Keys(Use(c, lru, key, now)) == Take([key] + Without(recent, key), c.Capacity())
  {
    KeysAfterMiss(c, lru, key, now);
    MissKeepsTheRest(recent, key, c.Capacity());
    TakeAfterMiss(recent, Without(recent, key), key, c.Capacity());
  }

  lemma MissKeepsTheRest(recent: seq<string>, key: string, n: nat)
    requires n >= 1 && key !in Take(recent, n)
    requires forall a, b :: 0 <= a < b < |recent| ==> recent[a] != recent[b]
    ensures |recent| < n ==> Without(recent, key) == recent
    ensures |recent| >= n ==> |Without(recent, key)| >= n - 1 && Without(recent, key)[..n - 1] == recent[..n - 1]
  {
    if key in recent {
      var j :| 0 <= j < |recent| && recent[j] == key;
      assert forall k :: 0 <= k < |Take(recent, n)| ==> Take(recent, n)[k] == recent[k];
      WithoutAt(recent, j);
    } else {
      WithoutAbsent(recent, key);
    }
  }

  lemma ApplyKeys(c: Config, lru: seq<Bucket>, op: Op)
    ensures Keys(Apply(c, lru, op)) == if op.Throttled? then Keys(lru) else Keys(Use(c, lru, op.key, op.now))
  {
  }

  /** The buckets kept are those of the keys used last, most recent first. */
  lemma {:induction false} KeepsMostRecent(c: Config, ops: seq<Op>)
    ensures Keys(Run(c, [], ops)) == Take(Recent(ops), c.Capacity())
  {
    if ops != [] {
      var init, last := ops[..|ops| - 1], ops[|ops| - 1];
      KeepsMostRecent(c, init);
      RecentDistinct(init);
      ApplyKeys(c, Run(c, [], init), last);
      if !last.Throttled? {
        if Position(Run(c, [], init), last.key) < |Run(c, [], init)| {
          HitMovesToFront(c, Run(c, [], init), Recent(init), last.key, last.now);
        } else {
          MissMovesToFront(c, Run(c, [], init), Recent(init), last.key, last.now);
        }
      }
    }
  }

  // ------------------------------------------------------------ the window bound

  /** What key could spend at `now`: a key without a bucket would get a full one. */
  function Level(c: Config, lru: seq<Bucket>, key: string, now: real): real {
    var i := Position(lru, key);
    if i < |lru| then Refill(c, lru[i], now).tokens else c.burst
  }

  /** What one more call admits. */
  function Grant(c: Config, lru: seq<Bucket>, op: Op, key: string): real {
    if op.Allow? && op.key == key && Admits(c, lru, op) then op.cost else 0.0
  }

  /** Tokens `Allow` handed out for key. */
  function Admitted(c: Config, lru: seq<Bucket>, ops: seq<Op>, key: string): real {
    if ops == [] then 0.0
    else
      var init, last := ops[..|ops| - 1], ops[|ops| - 1];
      Admitted(c, lru, init, key) + Grant(c, Run(c, lru, init), last, key)
  }

  /** key's bucket, once there, is not evicted. */
  predicate Resident(c: Config, lru: seq<Bucket>, ops: seq<Op>, key: string) {
    ops == [] ||
    (var init := ops[..|ops| - 1];
     Resident(c, lru, init, key) && (key in Keys(Run(c, lru, init)) ==> key in Keys(Run(c, lru, ops))))
  }

  lemma LevelIsFunction(c: Config, lru: seq<Bucket>, i: nat, now: real)
    requires Distinct(lru) && i < |lru|
    ensures Level(c, lru, lru[i].key, now) == Refill(c, lru[i], now).tokens
  {
    assert Position(lru, lru[i].key) == i;
  }

  lemma RefillTwice(c: Config, b: Bucket, t: real, u: real)
    requires c.Valid() && b.at <= t <= u
    ensures Refill(c, Refill(c, b, t), u) == Refill(c, b, u)
  {
  }

  lemma RefillGrowth(c: Config, b: Bucket, t: real, u: real)
    requires c.Valid() && b.at <= t <= u
    ensures Refill(c, b, t).tokens <= Refill(c, b, u).tokens <= Refill(c, b, t).tokens + (c.accrued(u) - c.accrued(t))
  {
  }

  lemma PositionIn(lru: seq<Bucket>, key: string)
    ensures key in Keys(lru) <==> Position(lru, key) < |lru|
  {
    if Position(lru, key) < |lru| { assert Keys(lru)[Position(lru, key)] == key; }
    if key in Keys(lru) {
      var j :| 0 <= j < |lru| && Keys(lru)[j] == key;
    }
  }

  /** Using key's own bucket: what it could spend is what is at the front. */
  lemma LevelOfUse(c: Config, lru: seq<Bucket>, key: string, now: real)
    requires Sound(c, lru, now) && c.Valid()
    ensures -c.burst <= Use(c, lru, key, now)[0].tokens == Level(c, lru, key, now) <= c.burst
    ensures Use(c, lru, key, now)[0].at == now
  {
    if Position(lru, key) < |lru| { RefillBounds(c, lru[Position(lru, key)], now); }
  }

  lemma LevelAtFront(c: Config, lru: seq<Bucket>, now: real)
    requires lru != [] && lru[0].at == now && lru[0].tokens <= c.burst
    ensures Level(c, lru, lru[0].key, now) == lru[0].tokens
  {
  }

  /** One call changes what key can spend by what was admitted, and by what a
      charge took. */
  lemma LevelAfterOwn(c: Config, lru: seq<Bucket>, op: Op)
    requires c.Valid() && Sound(c, lru, op.now) && !op.Throttled? && 0.0 <= op.cost
    ensures Level(c, Apply(c, lru, op), op.key, op.now)
      <= Level(c, lru, op.key, op.now) - (if Admits(c, lru, op) then op.cost else 0.0)
    ensures Admits(c, lru, op) ==> 0.0 <= Level(c, Apply(c, lru, op), op.key, op.now)
  {
    LevelOfUse(c, lru, op.key, op.now);
    LevelAtFront(c, Apply(c, lru, op), op.now);
  }

  lemma UseKeepsOthers(c: Config, lru: seq<Bucket>, key: string, now: real, i: nat) returns (j: nat)
    requires i < |lru| && lru[i].key != key && lru[i].key in Keys(Use(c, lru, key, now)) && Distinct(lru)
    ensures j < |Use(c, lru, key, now)| && Use(c, lru, key, now)[j] == lru[i]
  {
    var used := Use(c, lru, key, now);
    j :| 0 <= j < |used| && Keys(used)[j] == lru[i].key;
    assert j > 0 && (used[j] in lru);
  }

  lemma LevelAfterOther(c: Config, lru: seq<Bucket>, op: Op, key: string)
    requires c.Valid() && Sound(c, lru, op.now) && !op.Throttled? && 0.0 <= op.cost && op.key != key
    requires key in Keys(lru) <==> key in Keys(Apply(c, lru, op))
    ensures Level(c, Apply(c, lru, op), key, op.now) == Level(c, lru, key, op.now)
  {
    var after := Apply(c, lru, op);
    PositionIn(lru, key);
    PositionIn(after, key);
    if key in Keys(lru) {
      ApplyKeys(c, lru, op);
      ApplyKeepsSound(c, lru, op);
      var j := UseKeepsOthers(c, lru, op.key, op.now, Position(lru, key));
      assert after[j] == Use(c, lru, op.key, op.now)[j];
      LevelIsFunction(c, after, j, op.now);
    }
  }

  lemma LevelAfterThrottled(c: Config, lru: seq<Bucket>, now: real, key: string)
    requires c.Valid() && Sound(c, lru, now)
    ensures Level(c, RefillAll(c, lru, now), key, now) == Level(c, lru, key, now)
  {
    var i := Position(lru, key);
    assert Position(RefillAll(c, lru, now), key) == i;
    if i < |lru| { RefillTwice(c, lru[i], now, now); }
  }

  lemma {:induction false} RunStaysSound(c: Config, lru: seq<Bucket>, ops: seq<Op>, start: real)
    requires c.Valid() && Sound(c, lru, start) && Orderly(ops) && (ops != [] ==> start <= ops[0].now)
    ensures Sound(c, Run(c, lru, ops), if ops == [] then start else Latest(ops))
  {
    if ops != [] {
      var init, last := ops[..|ops| - 1], ops[|ops| - 1];
      RunStaysSound(c, lru, init, start);
      ApplyKeepsSound(c, Run(c, lru, init), last);
    }
  }

  /** Waiting raises what key can spend by at most rate times the wait. */
  lemma LevelWaits(c: Config, lru: seq<Bucket>, key: string, t: real, u: real)
    requires c.Valid() && Sound(c, lru, t) && t <= u
    ensures Level(c, lru, key, u) <= Level(c, lru, key, t) + (c.accrued(u) - c.accrued(t))
  {
    if Position(lru, key) < |lru| { RefillGrowth(c, lru[Position(lru, key)], t, u); }
  }

  lemma LevelAfter(c: Config, lru: seq<Bucket>, op: Op, key: string)
    requires c.Valid() && Sound(c, lru, op.now) && (!op.Throttled? ==> 0.0 <= op.cost)
    requires key in Keys(lru) ==> key in Keys(Apply(c, lru, op))
    ensures Level(c, Apply(c, lru, op), key, op.now)
      <= Level(c, lru, key, op.now) - Grant(c, lru, op, key)
  {
    if op.Throttled? {
      LevelAfterThrottled(c, lru, op.now, key);
    } else if op.key == key {
      LevelAfterOwn(c, lru, op);
    } else {
      if key !in Keys(lru) { AbsentStays(c, lru, op, key); }
      LevelAfterOther(c, lru, op, key);
    }
  }

  lemma AbsentStays(c: Config, lru: seq<Bucket>, op: Op, key: string)
    requires !op.Throttled? && op.key != key && key !in Keys(lru)
    ensures key !in Keys(Apply(c, lru, op))
  {
    ApplyKeys(c, lru, op);
    var used := Use(c, lru, op.key, op.now);
    forall j | 0 <= j < |used| ensures Keys(used)[j] != key {
      if j > 0 {
        assert used[j] in lru;
        var k :| 0 <= k < |lru| && lru[k] == used[j];
        assert Keys(lru)[k] == used[j].key;
      }
    }
  }

  /** What was admitted and what can still be spent never exceed what could be
      spent at first plus what was earned. */
  lemma SpendingStep(c: Config, lru: seq<Bucket>, op: Op, key: string, since: real)
    requires c.Valid() && Sound(c, lru, since) && since <= op.now && (!op.Throttled? ==> 0.0 <= op.cost)
    requires key in Keys(lru) ==> key in Keys(Apply(c, lru, op))
    ensures Grant(c, lru, op, key) + Level(c, Apply(c, lru, op), key, op.now)
      <= Level(c, lru, key, since) + (c.accrued(op.now) - c.accrued(since))
    ensures 0.0 < Grant(c, lru, op, key) ==> 0.0 <= Level(c, Apply(c, lru, op), key, op.now)
  {
    LevelWaits(c, lru, key, since, op.now);
    LevelAfter(c, lru, op, key);
    if 0.0 < Grant(c, lru, op, key) { LevelAfterOwn(c, lru, op); }
  }

  lemma RunSplit(c: Config, lru: seq<Bucket>, ops: seq<Op>, key: string)
    requires ops != []
    ensures var init, last := ops[..|ops| - 1], ops[|ops| - 1];
      && Run(c, lru, ops) == Apply(c, Run(c, lru, init), last)
      && Admitted(c, lru, ops, key) == Admitted(c, lru, init, key) + Grant(c, Run(c, lru, init), last, key)
  {
  }

  lemma {:induction false} Spending(c: Config, lru: seq<Bucket>, ops: seq<Op>, key: string)
    requires c.Valid() && Orderly(ops) && ops != [] && Sound(c, lru, ops[0].now) && Resident(c, lru, ops, key)
    ensures Admitted(c, lru, ops, key) + Level(c, Run(c, lru, ops), key, Latest(ops))
      <= Level(c, lru, key, ops[0].now) + (c.accrued(Latest(ops)) - c.accrued(ops[0].now))
  {
    var init, last := ops[..|ops| - 1], ops[|ops| - 1];
    RunStaysSound(c, lru, init, ops[0].now);
    RunSplit(c, lru, ops, key);
    if init == [] {
      SpendingStep(c, lru, last, key, last.now);
    } else {
      Spending(c, lru, init, key);
      SpendingStep(c, Run(c, lru, init), last, key, Latest(init));
    }
  }

  /** In any stretch of calls that keeps key's bucket, `Allow` lets through at
      most the burst and what the stretch earned. */
  lemma {:induction false} WindowBound(c: Config, lru: seq<Bucket>, ops: seq<Op>, key: string)
    requires c.Valid() && Orderly(ops) && ops != [] && Sound(c, lru, ops[0].now) && Resident(c, lru, ops, key)
    ensures Admitted(c, lru, ops, key) <= c.burst + (c.accrued(Latest(ops)) - c.accrued(ops[0].now))
  {
    hide Run, Level, Use;
    var init, last := ops[..|ops| - 1], ops[|ops| - 1];
    RunSplit(c, lru, ops, key);
    if Grant(c, Run(c, lru, init), last, key) > 0.0 {
      LevelCap(c, lru, key, ops[0].now);
      Spending(c, lru, ops, key);
      RunStaysSound(c, lru, init, ops[0].now);
      LevelAfterOwn(c, Run(c, lru, init), last);
    } else if init != [] {
      WindowBound(c, lru, init, key);
    }
  }

  lemma LevelCap(c: Config, lru: seq<Bucket>, key: string, now: real)
    ensures Level(c, lru, key, now) <= c.burst
  {
  }

  /** A steady rate earns rate times the time that passed. */
  lemma SteadyRate(perSec: real, burst: real, maxKeys: int, t: real, u: real)
    requires 0.0 <= perSec && 0.0 <= burst
    ensures AtRate(perSec, burst, maxKeys).Valid()
    ensures var c := AtRate(perSec, burst, maxKeys); c.accrued(u) - c.accrued(t) == (u - t) * perSec
  {
    var c := AtRate(perSec, burst, maxKeys);
    forall x, y | x <= y ensures c.accrued(x) <= c.accrued(y) {
      Monotone(x, y, perSec);
    }
  }

  lemma Monotone(x: real, y: real, rate: real)
    requires x <= y && 0.0 <= rate
    ensures x * rate <= y * rate
  {
    assert 0.0 <= (y - x) * rate;
  }

  /** Without residency there is no such bound: a key pushed out comes back with
      a full bucket, at the same instant. */
  lemma EvictionRefills(c: Config, a: string, b: string)
    requires c.Valid() && c.maxKeys == 1 && a != b && 0.0 < c.burst
    ensures var ops := [Allow(a, c.burst, 0.0), Charge(b, 0.0, 0.0), Allow(a, c.burst, 0.0)];
      Admitted(c, [], ops, a) == 2.0 * c.burst && !Resident(c, [], ops, a)
  {
    var one, two, three := Allow(a, c.burst, 0.0), Charge(b, 0.0, 0.0), Allow(a, c.burst, 0.0);
    assert [one, two, three][..2] == [one, two] && [one, two][..1] == [one] && [one][..0] == [];
    var empty, first, second := [], [Bucket(a, 0.0, 0.0)], [Bucket(b, c.burst, 0.0)];
    assert Apply(c, empty, one) == first && Admits(c, empty, one);
    RunSplit(c, empty, [one], a);
    assert Apply(c, first, two) == second;
    RunSplit(c, empty, [one, two], a);
    assert Admits(c, second, three);
    RunSplit(c, empty, [one, two, three], a);
    assert Keys(first)[0] == a && a !in Keys(second);
    assert !Resident(c, [], [one, two], a);
  }

  // ------------------------------------------------- looking changes no decision

  /** The run without its `Throttled` calls. */
  function Calls(ops: seq<Op>): seq<Op> {
    if ops == [] then []
    else Calls(ops[..|ops| - 1]) + (if ops[|ops| - 1].Throttled? then [] else [ops[|ops| - 1]])
  }

  /** What each `Allow` answered, in order. */
  function Decisions(c: Config, ops: seq<Op>): seq<bool> {
    if ops == [] then []
    else
      var init, last := ops[..|ops| - 1], ops[|ops| - 1];
      Decisions(c, init) + (if last.Allow? then [Admits(c, Run(c, [], init), last)] else [])
  }

  /** The same buckets, refilled at different times. */
  ghost predicate Alike(c: Config, a: seq<Bucket>, b: seq<Bucket>, now: real) {
    && |a| == |b|
    && (forall i :: 0 <= i < |a| ==>
         a[i].key == b[i].key && a[i].at <= now && b[i].at <= now && Refill(c, a[i], now) == Refill(c, b[i], now))
  }

  lemma AlikeLater(c: Config, a: seq<Bucket>, b: seq<Bucket>, t: real, u: real)
    requires c.Valid() && Alike(c, a, b, t) && t <= u
    ensures Alike(c, a, b, u)
  {
    forall i | 0 <= i < |a| ensures Refill(c, a[i], u) == Refill(c, b[i], u) {
      RefillTwice(c, a[i], t, u);
      RefillTwice(c, b[i], t, u);
    }
  }

  lemma AlikePosition(c: Config, a: seq<Bucket>, b: seq<Bucket>, now: real, key: string)
    requires Alike(c, a, b, now)
    ensures Position(a, key) == Position(b, key)
  {
  }

  lemma AlikeUse(c: Config, a: seq<Bucket>, b: seq<Bucket>, key: string, now: real)
    requires Alike(c, a, b, now)
    ensures Use(c, a, key, now)[0] == Use(c, b, key, now)[0]
    ensures Alike(c, Use(c, a, key, now), Use(c, b, key, now), now)
  {
    AlikePosition(c, a, b, now, key);
    hide Position, Evict, Refill, Alike;
    var i := Position(a, key);
    if i < |a| {
      AlikeMoved(c, a, b, now, i);
    } else {
      AlikeEvict(c, a, b, now);
      AlikeAdded(c, Evict(c, a), Evict(c, b), now, key);
    }
  }

  lemma AlikeMoved(c: Config, a: seq<Bucket>, b: seq<Bucket>, now: real, i: nat)
    requires Alike(c, a, b, now) && i < |a|
    ensures Refill(c, a[i], now) == Refill(c, b[i], now)
    ensures Alike(c, [Refill(c, a[i], now)] + a[..i] + a[i + 1..], [Refill(c, b[i], now)] + b[..i] + b[i + 1..], now)
  {
    hide Refill;
    RefillAgain(c, a[i], now);
    var front, back := Refill(c, a[i], now), Refill(c, b[i], now);
    assert front == back;
    Shifted(front, a, i);
    Shifted(back, b, i);
  }

  lemma Shifted(front: Bucket, s: seq<Bucket>, i: nat)
    requires i < |s|
    ensures var moved := [front] + s[..i] + s[i + 1..];
      |moved| == |s| && moved[0] == front && forall k :: 0 < k < |s| ==> moved[k] == s[Was(i, k)]
  {
  }

  lemma AlikeAdded(c: Config, a: seq<Bucket>, b: seq<Bucket>, now: real, key: string)
    requires Alike(c, a, b, now)
    ensures Alike(c, [Bucket(key, c.burst, now)] + a, [Bucket(key, c.burst, now)] + b, now)
  {
    hide Refill;
  }

  lemma RefillAgain(c: Config, b: Bucket, now: real)
    ensures Refill(c, Refill(c, b, now), now) == Refill(c, b, now)
    ensures Refill(c, b, now).key == b.key && Refill(c, b, now).at == now
  {
  }

  lemma AlikeEvict(c: Config, a: seq<Bucket>, b: seq<Bucket>, now: real)
    requires Alike(c, a, b, now)
    ensures Alike(c, Evict(c, a), Evict(c, b), now)
  {
    hide Refill;
  }

  lemma AlikeApply(c: Config, a: seq<Bucket>, b: seq<Bucket>, op: Op)
    requires c.Valid() && Alike(c, a, b, op.now) && !op.Throttled?
    ensures op.Allow? ==> Admits(c, a, op) == Admits(c, b, op)
    ensures Alike(c, Apply(c, a, op), Apply(c, b, op), op.now)
  {
    AlikeUse(c, a, b, op.key, op.now);
  }

  lemma AlikeRefilled(c: Config, a: seq<Bucket>, b: seq<Bucket>, now: real)
    requires c.Valid() && Alike(c, a, b, now)
    ensures Alike(c, RefillAll(c, a, now), b, now)
  {
    forall i | 0 <= i < |a| ensures Refill(c, RefillAll(c, a, now)[i], now) == Refill(c, b[i], now) {
      RefillTwice(c, a[i], now, now);
    }
  }

  /** Looking at what is throttled changes no later decision. */
  lemma {:induction false} ThrottledIsPure(c: Config, ops: seq<Op>)
    requires c.Valid() && Orderly(ops)
    ensures Decisions(c, Calls(ops)) == Decisions(c, ops)
    ensures ops != [] ==> Alike(c, Run(c, [], ops), Run(c, [], Calls(ops)), Latest(ops))
  {
    if ops != [] {
      var init, last := ops[..|ops| - 1], ops[|ops| - 1];
      ThrottledIsPure(c, init);
      var a, b := Run(c, [], init), Run(c, [], Calls(init));
      if init != [] { AlikeLater(c, a, b, Latest(init), last.now); }
      if last.Throttled? {
        AlikeRefilled(c, a, b, last.now);
        assert Calls(ops) == Calls(init);
      } else {
        AlikeApply(c, a, b, last);
        assert Calls(ops)[..|Calls(init)|] == Calls(init);
      }
    }
  }
}
