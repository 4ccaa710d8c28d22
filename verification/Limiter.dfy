/**
 The limiter as it is kept: a map from key to bucket and a list of the same
 buckets, most recently used first, both updated in place.  Every method does
 to the list what RateLimit says one call does.
 */
module Limiter {
  import opened RateLimit
  import opened TextOrder

  class Node {
    const key: string
    var tokens: real
    var at: real

    constructor (key: string, tokens: real, at: real)
      ensures this.key == key && this.tokens == tokens && this.at == at
    {
      this.key, this.tokens, this.at := key, tokens, at;
    }

    function Value(): Bucket
      reads this
    {
      Bucket(key, tokens, at)
    }
  }

  /** The map and the list hold the same buckets, once each. */
  ghost predicate Agree(keys: map<string, Node>, lru: seq<Node>) {
    && (forall i :: 0 <= i < |lru| ==> lru[i].key in keys && keys[lru[i].key] == lru[i])
    && (forall i, j :: 0 <= i < j < |lru| ==> lru[i].key != lru[j].key)
    && (forall k :: k in keys ==> keys[k].key == k && keys[k] in lru)
  }

  ghost predicate Mirrors(lru: seq<Node>, model: seq<Bucket>)
    reads lru
  {
    |model| == |lru| && forall i :: 0 <= i < |lru| ==> lru[i].Value() == model[i]
  }

  lemma AgreeDrop(keys: map<string, Node>, lru: seq<Node>, n: nat)
    requires Agree(keys, lru) && |lru| == n + 1
    ensures Agree(keys - {lru[n].key}, lru[..n])
  {
    var less := keys - {lru[n].key};
    forall k | k in less ensures less[k] in lru[..n] {
      var i :| 0 <= i < |lru| && lru[i] == keys[k];
      assert lru[..n][i] == less[k];
    }
  }

  function MovedUp(lru: seq<Node>, i: nat): seq<Node>
    requires i < |lru|
  {
    [lru[i]] + lru[..i] + lru[i + 1..]
  }

  lemma SameNodes(lru: seq<Node>, i: nat)
    requires i < |lru|
    ensures forall n :: n in MovedUp(lru, i) <==> n in lru
  {
    Moved(lru, i);
    hide Was;
    var moved := MovedUp(lru, i);
    forall k | 0 <= k < |lru| ensures lru[k] in moved {
      assert moved[if k < i then k + 1 else if k == i then 0 else k] == lru[k];
    }
  }

  lemma MovedApart(lru: seq<Node>, i: nat)
    requires i < |lru| && forall a, b :: 0 <= a < b < |lru| ==> lru[a].key != lru[b].key
    ensures var moved := MovedUp(lru, i); forall a, b :: 0 <= a < b < |moved| ==> moved[a].key != moved[b].key
  {
    Moved(lru, i);
    var moved := MovedUp(lru, i);
    forall a, b | 0 <= a < b < |moved| ensures moved[a].key != moved[b].key {
      assert moved[a] == lru[Was(i, a)] && moved[b] == lru[Was(i, b)];
    }
  }

  lemma AgreeMove(keys: map<string, Node>, lru: seq<Node>, i: nat)
    requires Agree(keys, lru) && i < |lru|
    ensures Agree(keys, [lru[i]] + lru[..i] + lru[i + 1..])
    ensures forall n :: n in [lru[i]] + lru[..i] + lru[i + 1..] <==> n in lru
  {
    SameNodes(lru, i);
    MovedApart(lru, i);
    var moved := MovedUp(lru, i);
    assert moved == [lru[i]] + lru[..i] + lru[i + 1..];
    hide MovedUp;
    forall a | 0 <= a < |moved| ensures moved[a].key in keys && keys[moved[a].key] == moved[a] {
      assert moved[a] in lru;
    }
  }

  lemma AgreeAdd(keys: map<string, Node>, lru: seq<Node>, b: Node)
    requires Agree(keys, lru) && b.key !in keys
    ensures Agree(keys[b.key := b], [b] + lru)
  {
    var more, longer := keys[b.key := b], [b] + lru;
    forall k | k in more ensures more[k] in longer {
      if k != b.key {
        var i :| 0 <= i < |lru| && lru[i] == keys[k];
        assert longer[i + 1] == more[k];
      }
    }
  }

  lemma MirrorsMove(lru: seq<Node>, model: seq<Bucket>, i: nat)
    requires Mirrors(lru, model) && i < |lru|
    ensures Mirrors([lru[i]] + lru[..i] + lru[i + 1..], [model[i]] + model[..i] + model[i + 1..])
  {
    var moved, values := [lru[i]] + lru[..i] + lru[i + 1..], [model[i]] + model[..i] + model[i + 1..];
    Moved(lru, i);
    Moved(model, i);
    forall k | 0 <= k < |moved| ensures moved[k].Value() == values[k] {
      assert lru[Was(i, k)].Value() == model[Was(i, k)];
    }
  }

  lemma AbsentFrom(keys: map<string, Node>, lru: seq<Node>, model: seq<Bucket>, key: string)
    requires Agree(keys, lru) && Mirrors(lru, model) && key !in keys
    ensures Position(model, key) == |model|
  {
    forall i | 0 <= i < |model| ensures model[i].key != key {
      assert lru[i].Value() == model[i];
    }
  }

  method FoundAt(keys: map<string, Node>, lru: seq<Node>, ghost model: seq<Bucket>, key: string) returns (k: nat)
    requires Agree(keys, lru) && Mirrors(lru, model) && key in keys
    ensures k < |lru| == |model| && lru[k] == keys[key] && Position(model, key) == k
  {
    var i :| 0 <= i < |lru| && lru[i] == keys[key];
    k := i;
    forall j | 0 <= j < |model| ensures model[j].key == lru[j].key { assert lru[j].Value() == model[j]; }
    PositionOf(model, key, k);
  }

  lemma UseHit(c: Config, lru: seq<Bucket>, key: string, now: real)
    ensures var i := Position(lru, key); i < |lru| ==>
      RateLimit.Use(c, lru, key, now) == ([lru[i]] + lru[..i] + lru[i + 1..])[0 := Refill(c, lru[i], now)]
  {
  }

  lemma UseMiss(c: Config, lru: seq<Bucket>, key: string, now: real)
    requires Position(lru, key) == |lru|
    ensures RateLimit.Use(c, lru, key, now) == [Bucket(key, c.burst, now)] + Evict(c, lru)
  {
  }

  class Limiter {
    const config: Config
    var keys: map<string, Node>
    var lru: seq<Node>
    ghost var model: seq<Bucket>  // the values of the list

    ghost predicate Valid()
      reads this, lru
    {
      Agree(keys, lru) && Mirrors(lru, model)
    }

    constructor (perMinute: nat, burst: nat, maxKeys: int)
      ensures Valid() && model == [] && config == AtRate(perMinute as real / 60.0, burst as real, maxKeys)
    {
      config := AtRate(perMinute as real / 60.0, burst as real, maxKeys);
      keys, lru, model := map[], [], [];
    }

    method RefillNode(b: Node, now: real)
      modifies b
      ensures b.Value() == Refill(config, old(b.Value()), now)
    {
      b.tokens := b.tokens + (config.accrued(now) - config.accrued(b.at));
      if b.tokens > config.burst { b.tokens := config.burst; }
      b.at := now;
    }

    /** Room for one more bucket: the least recently used go. */
    method MakeRoom()
      requires Valid()
      modifies this
      ensures Valid() && model == Evict(config, old(model))
      ensures lru <= old(lru) && forall k :: k in keys ==> k in old(keys)
    {
      ghost var before := model;
      while |lru| >= config.maxKeys && |lru| > 0
        invariant Valid() && lru <= old(lru) && model <= before
        invariant |model| < |before| ==> |model| >= config.Capacity() - 1
        invariant forall k :: k in keys ==> k in old(keys)
        decreases |lru|
      {
        DropLast();
      }
    }

    method DropLast()
      requires Valid() && lru != []
      modifies this
      ensures Valid() && lru == old(lru)[..|old(lru)| - 1] && model == old(model)[..|old(lru)| - 1]
      ensures keys.Keys <= old(keys).Keys
    {
      hide Agree;
      var n := |lru| - 1;
      AgreeDrop(keys, lru, n);
      keys := keys - {lru[n].key};
      lru, model := lru[..n], model[..n];
    }

    /** A bucket already there is moved to the front. */
    method MoveToFront(key: string) returns (b: Node)
      requires Valid() && key in keys
      modifies this`lru, this`model
      ensures Valid() && lru != [] && lru[0] == b && b in old(lru)
      ensures var i := Position(old(model), key);
        i < |old(model)| && model == [old(model)[i]] + old(model)[..i] + old(model)[i + 1..]
    {
      hide Agree, Mirrors, Position;
      var k := FoundAt(keys, lru, model, key);
      AgreeMove(keys, lru, k);
      MirrorsMove(lru, model, k);
      b := keys[key];
      lru := [b] + lru[..k] + lru[k + 1..];
      model := [model[k]] + model[..k] + model[k + 1..];
    }

    /** The bucket at the front gets a new balance. */
    method SetTokens(b: Node, tokens: real)
      requires Valid() && lru != [] && lru[0] == b
      modifies b`tokens, this`model
      ensures Valid() && model == old(model)[0 := old(model)[0].(tokens := tokens)]
    {
      b.tokens := tokens;
      model := model[0 := b.Value()];
    }

    /** A new bucket starts full. */
    method AddToFront(key: string, now: real) returns (b: Node)
      requires Valid() && key !in keys
      modifies this
      ensures Valid() && fresh(b) && lru == [b] + old(lru) && model == [Bucket(key, config.burst, now)] + old(model)
    {
      hide Agree;
      b := new Node(key, config.burst, now);
      AgreeAdd(keys, lru, b);
      keys := keys[key := b];
      lru, model := [b] + lru, [b.Value()] + model;
    }

    method UseKnown(key: string, now: real) returns (b: Node)
      requires Valid() && key in keys
      modifies this`lru, this`model, lru
      ensures Valid() && model == RateLimit.Use(config, old(model), key, now)
      ensures lru != [] && lru[0] == b && b in old(lru)
    {
      hide Agree, RateLimit.Use;
      UseHit(config, model, key, now);
      b := MoveToFront(key);
      RefillAt(0, now);
    }

    method UseNew(key: string, now: real) returns (b: Node)
      requires Valid() && key !in keys
      modifies this
      ensures Valid() && model == RateLimit.Use(config, old(model), key, now)
      ensures lru != [] && lru[0] == b && fresh(b)
    {
      AbsentFrom(keys, lru, model, key);
      hide Agree, RateLimit.Use;
      UseMiss(config, model, key, now);
      MakeRoom();
      b := AddToFront(key, now);
    }

    /** key's bucket, refilled or new, at the front of the list. */
    method Use(key: string, now: real) returns (b: Node)
      requires Valid()
      modifies this, lru
      ensures Valid() && model == RateLimit.Use(config, old(model), key, now)
      ensures lru != [] && lru[0] == b && (b in old(lru) || fresh(b)) && b.Value() == model[0]
    {
      hide Agree, RateLimit.Use;
      if key in keys { b := UseKnown(key, now); } else { b := UseNew(key, now); }
    }

    method Allow(key: string, cost: real, now: real) returns (ok: bool)
      requires Valid()
      modifies this, lru
      ensures Valid() && model == Apply(config, old(model), RateLimit.Allow(key, cost, now))
      ensures ok == Admits(config, old(model), RateLimit.Allow(key, cost, now))
    {
      hide Agree;
      ApplyAllow(config, model, key, cost, now);
      var b := Use(key, now);
      if b.tokens < cost { return false; }
      SetTokens(b, b.tokens - cost);
      return true;
    }

    method Charge(key: string, cost: real, now: real)
      requires Valid()
      modifies this, lru
      ensures Valid() && model == Apply(config, old(model), RateLimit.Charge(key, cost, now))
    {
      hide Agree;
      ApplyCharge(config, model, key, cost, now);
      var b := Use(key, now);
      SetTokens(b, if b.tokens - cost < -config.burst then -config.burst else b.tokens - cost);
    }

    /** The keys that could not make a request now, sorted. */
    method Throttled(now: real) returns (out: seq<string>)
      requires Valid()
      modifies this`model, lru
      ensures Valid() && model == Apply(config, old(model), RateLimit.Throttled(now))
      ensures multiset(out) == multiset(Starved(model)) && InOrder(out)
    {
      hide Agree, Mirrors, Starved;
      out := Scan(now);
      SortedIsSorted(out);
      out := Sorted(out);
    }

    /** Every bucket is refilled where it is; the starved ones' keys in list order. */
    method Scan(now: real) returns (out: seq<string>)
      requires Valid()
      modifies this`model, lru
      ensures Valid() && model == RefillAll(config, old(model), now) && out == Starved(model)
    {
      hide Agree;
      out := [];
      ghost var before := model;
      var i := 0;
      while i < |lru|
        invariant 0 <= i <= |lru| && lru == old(lru) && Valid() && |model| == |before|
        invariant forall j :: 0 <= j < i ==> model[j] == Refill(config, before[j], now)
        invariant forall j :: i <= j < |model| ==> model[j] == before[j]
        invariant out == Starved(model[..i])
      {
        ghost var done := model[..i];
        RefillAt(i, now);
        assert model[..i] == done;
        assert model[..i + 1][..i] == model[..i];
        if lru[i].tokens < 1.0 { out := out + [lru[i].key]; }
        i := i + 1;
      }
      assert model[..i] == model;
    }

    /** The i-th bucket, brought up to now where it is. */
    method RefillAt(i: nat, now: real)
      requires Valid() && i < |lru|
      modifies lru[i], this`model
      ensures Valid() && model == old(model)[i := Refill(config, old(model)[i], now)]
    {
      var b := lru[i];
      RefillNode(b, now);
      model := model[i := b.Value()];
    }
  }

  lemma PositionOf(m: seq<Bucket>, key: string, k: nat)
    requires k < |m| && m[k].key == key && forall j :: 0 <= j < |m| && j != k ==> m[j].key != key
    ensures Position(m, key) == k
  {
  }
}
