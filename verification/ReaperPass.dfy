/**
 The reaper's loops over the database it changes: the consumers of a layer, the
 orphans, one reap in its own transaction, a sweep, a pass.
 */
module ReaperPass {
  import opened Prelude
  import opened Reaper
  import opened ReaperFate

  /** Is the key among the configured consumers? */
  method Known(configured: seq<Consumer>, k: ForeignKey) returns (known: bool)
    ensures known <==> Names(configured, k)
  {
    for i := 0 to |configured|
      invariant forall j :: 0 <= j < i ==> !ConsumesKey(configured[j], k)
    {
      if configured[i].table == k.table && configured[i].column == k.column { return true; }
    }
    return false;
  }

  method AllConsumers(configured: seq<Consumer>, keys: seq<ForeignKey>, layer: Layer) returns (out: seq<Consumer>)
    ensures out == Consumers(configured, keys, layer)
  {
    out := configured;
    for i := 0 to |keys|
      invariant out == Consumers(configured, keys[..i], layer)
    {
      ConsumersStep(configured, keys[..i], layer, keys[i]);
      assert keys[..i + 1] == keys[..i] + [keys[i]];
      if keys[i].layer == layer && !keys[i].cascades {
        var known := Known(configured, keys[i]);
        if !known { out := out + [Consumer(keys[i].table, keys[i].column, None)]; }
      }
    }
    assert keys[..|keys|] == keys;
  }

  class Database {
    const keys: seq<ForeignKey>
    var parents: map<Parent, int>
    var records: map<int, Record>

    function Value(): Db
      reads this
    {
      Db(parents, records)
    }

    constructor (keys: seq<ForeignKey>, db: Db)
      ensures this.keys == keys && Value() == db
    {
      this.keys := keys;
      parents, records := db.parents, db.records;
    }

    /** The orphans, each once. */
    method FindOrphans(consumers: seq<Consumer>, layer: Layer, cutoff: int) returns (out: seq<Parent>)
      ensures forall p :: p in out <==> p in Orphans(Value(), consumers, layer, cutoff)
      ensures forall i, j :: 0 <= i < j < |out| ==> out[i] != out[j]
    {
      var rest := Orphans(Value(), consumers, layer, cutoff);
      out := [];
      while rest != {}
        invariant forall p :: p in out || p in rest <==> p in Orphans(Value(), consumers, layer, cutoff)
        invariant forall p :: p in out ==> p !in rest
        invariant forall i, j :: 0 <= i < j < |out| ==> out[i] != out[j]
        decreases |rest|
      {
        var p :| p in rest;
        out, rest := out + [p], rest - {p};
      }
    }

    /** DELETE the consumers' rows that point at p and are not selected. */
    method DeleteDead(consumers: seq<Consumer>, p: Parent)
      modifies this`records
      ensures records == map i | i in old(records) && !Dead(old(records)[i], consumers, p) :: old(records)[i]
    {
      for k := 0 to |consumers|
        invariant records == map i | i in old(records) && !Dead(old(records)[i], consumers[..k], p) :: old(records)[i]
      {
        var c := consumers[k];
        forall i | i in old(records)
          ensures Dead(old(records)[i], consumers[..k + 1], p) <==>
            Dead(old(records)[i], consumers[..k], p) || DeadFor(old(records)[i], c, p)
        {
          DeadSnoc(old(records)[i], consumers, k, p);
        }
        if c.filter.Some? {
          records := map i | i in records && !DeadFor(records[i], c, p) :: records[i];
        }
      }
      assert consumers[..|consumers|] == consumers;
    }

    /** DELETE the row: refused by a key that does not cascade. */
    method DeleteRow(p: Parent) returns (ok: bool)
      modifies this
      ensures ok <==> !old(Refused(records, keys, p))
      ensures ok ==> parents == old(parents) - {p}
      ensures ok ==> records == map i | i in old(records) && !Owned(old(records)[i], keys, p) :: old(records)[i]
      ensures !ok ==> Value() == old(Value())
    {
      ok := !Refused(records, keys, p);
      if ok {
        parents := parents - {p};
        records := map i | i in records && !Owned(records[i], keys, p) :: records[i];
      }
    }

    /** One orphan in its own transaction; an error rolls everything back. */
    method ReapOne(consumers: seq<Consumer>, ghost configured: seq<Consumer>, layer: Layer, cutoff: int, p: Parent, stuck: set<Parent>)
      returns (ok: bool, err: bool)
      requires consumers == Consumers(configured, keys, layer) && LayerOf(p) == layer
      modifies this
      ensures ok <==> old(Orphan(Value(), consumers, layer, cutoff, p)) && p !in stuck
      ensures err <==> old(Orphan(Value(), consumers, layer, cutoff, p)) && p in stuck
      ensures Value() == if ok then Without(old(Value()), consumers, keys, {p}) else old(Value())
      ensures ok ==> parents == old(parents) - {p} && forall i :: i in old(records) ==>
        (i in records <==> !Lapsed(configured, old(records)[i], p) && !Part(keys, old(records)[i], p))
      ensures ok ==> forall i :: i in old(records) ==> !Live(configured, keys, old(records)[i], p)
    {
      ok, err := false, false;
      if !(p in parents && parents[p] < cutoff && !Used(Value(), consumers, p)) { return; }
      ghost var before := Value();
      var saved := records;
      DeleteDead(consumers, p);
      if p in stuck {
        records, err := saved, true;
        return;
      }
      ReapIsNeverRefused(before, configured, keys, p, records);
      ok := DeleteRow(p);
      ReapedBoth(before, consumers, keys, p, Value());
      ReapedTells(before, configured, keys, p, Value());
    }

    /** Every orphan of a layer; one that cannot be reaped is counted and left. */
    method Sweep(configured: seq<Consumer>, layer: Layer, cutoff: int, stuck: set<Parent>) returns (reaped: nat, failed: nat)
      requires Independent(Consumers(configured, keys, layer), keys, layer)
      modifies this
      ensures var all := Consumers(configured, keys, layer); var orphans := old(Orphans(Value(), all, layer, cutoff));
        && Value() == Swept(old(Value()), all, keys, layer, cutoff, stuck)
        && reaped == |orphans - stuck| && failed == |orphans * stuck|
    {
      var consumers := AllConsumers(configured, keys, layer);
      var found := FindOrphans(consumers, layer, cutoff);
      reaped, failed := 0, 0;
      hide Swept, Independent, Without, Orphan, Consumers, Good, Bad;
      ghost var before := Value();
      NothingGone(before, consumers, keys, found, stuck);
      for i := 0 to |found|
        invariant Value() == Without(before, consumers, keys, Good(found[..i], stuck))
        invariant reaped == |Good(found[..i], stuck)| && failed == |Bad(found[..i], stuck)|
      {
        var p := found[i];
        TakeOne(found, i, stuck);
        StillOrphan(before, consumers, keys, layer, cutoff, found[..i], stuck, p);
        var ok, err := ReapOne(consumers, configured, layer, cutoff, p, stuck);
        if err {
          failed := failed + 1;
        } else if ok {
          WithoutOneMore(before, consumers, keys, Good(found[..i], stuck), p);
          reaped := reaped + 1;
        }
      }
      assert found[..|found|] == found;
      GoodAndBad(found, Orphans(before, consumers, layer, cutoff), stuck);
    }

    /** Files first, so that their chunks no longer hold the blobs. */
    method RunOnce(files: seq<Consumer>, blobs: seq<Consumer>, fileCutoff: int, blobCutoff: int, stuck: set<Parent>)
      returns (failed: nat)
      requires Fits(files, blobs, keys)
      modifies this
      ensures Value() == Pass(old(Value()), files, blobs, keys, fileCutoff, blobCutoff, stuck)
      ensures PassIs(old(Value()), Value(), files, blobs, keys, fileCutoff, blobCutoff, stuck)
      ensures failed == 0 ==>
        && Orphans(Value(), Consumers(files, keys, Files), Files, fileCutoff) == {}
        && Orphans(Value(), Consumers(blobs, keys, Blobs), Blobs, blobCutoff) == {}
    {
      ghost var before := Value();
      var _, some := Sweep(files, Files, fileCutoff, stuck);
      ghost var mid := Value();
      var _, more := Sweep(blobs, Blobs, blobCutoff, stuck);
      failed := some + more;
      PassTells(before, files, blobs, keys, fileCutoff, blobCutoff, stuck);
      hide PassIs, Orphans;
      if failed == 0 { NoneStuck(before, mid, files, blobs, keys, fileCutoff, blobCutoff, stuck); }
    }
  }

  lemma DeadSnoc(r: Record, consumers: seq<Consumer>, k: nat, p: Parent)
    requires k < |consumers|
    ensures Dead(r, consumers[..k + 1], p) <==> Dead(r, consumers[..k], p) || DeadFor(r, consumers[k], p)
  {
    hide DeadFor;
    var longer := consumers[..k + 1];
    assert longer[k] == consumers[k];
    assert forall j | 0 <= j < k :: longer[j] == consumers[..k][j];
  }

  /** First the dead references, then the row with its own parts. */
  lemma ReapedBoth(before: Db, consumers: seq<Consumer>, keys: seq<ForeignKey>, p: Parent, after: Db)
    requires after.parents == before.parents - {p}
    requires var mid := map i | i in before.records && !Dead(before.records[i], consumers, p) :: before.records[i];
      after.records == map i | i in mid && !Owned(mid[i], keys, p) :: mid[i]
    ensures after == Without(before, consumers, keys, {p})
  {
    hide Dead, Owned;
    var once := Without(before, consumers, keys, {p});
    forall i | i in before.records ensures i in once.records <==> i in after.records {
      assert GoesWithSome(before.records[i], consumers, keys, {p}) <==> GoesWith(before.records[i], consumers, keys, p);
    }
  }

  /** What went with p: the lapsed references and its parts, and nothing live. */
  lemma ReapedTells(before: Db, configured: seq<Consumer>, keys: seq<ForeignKey>, p: Parent, after: Db)
    requires !Used(before, Consumers(configured, keys, LayerOf(p)), p)
    requires after == Without(before, Consumers(configured, keys, LayerOf(p)), keys, {p})
    ensures forall i :: i in before.records ==>
      (i in after.records <==> !Lapsed(configured, before.records[i], p) && !Part(keys, before.records[i], p))
    ensures forall i :: i in before.records ==> !Live(configured, keys, before.records[i], p)
  {
    UsedIsInUse(before, configured, keys, p);
    hide Used, Live, Consumers;
    forall i | i in before.records
      ensures i in after.records <==> !Lapsed(configured, before.records[i], p) && !Part(keys, before.records[i], p)
    {
      GoesIsRaw(before, configured, keys, before.records[i], p);
      hide GoesWith, Lapsed, Part;
      assert GoesWithSome(before.records[i], Consumers(configured, keys, LayerOf(p)), keys, {p}) <==>
        GoesWith(before.records[i], Consumers(configured, keys, LayerOf(p)), keys, p);
    }
  }

  function Good(found: seq<Parent>, stuck: set<Parent>): set<Parent> {
    set p | p in found && p !in stuck
  }

  function Bad(found: seq<Parent>, stuck: set<Parent>): set<Parent> {
    set p | p in found && p in stuck
  }

  lemma TakeOne(found: seq<Parent>, i: nat, stuck: set<Parent>)
    requires i < |found| && forall j, k :: 0 <= j < k < |found| ==> found[j] != found[k]
    ensures found[i] !in found[..i]
    ensures Good(found[..i + 1], stuck) ==
      if found[i] in stuck then Good(found[..i], stuck) else Good(found[..i], stuck) + {found[i]}
    ensures |Good(found[..i + 1], stuck)| == |Good(found[..i], stuck)| + if found[i] in stuck then 0 else 1
    ensures |Bad(found[..i + 1], stuck)| == |Bad(found[..i], stuck)| + if found[i] in stuck then 1 else 0
  {
    var less, more := found[..i], found[..i + 1];
    assert more == less + [found[i]];
    if found[i] in stuck {
      assert Bad(more, stuck) == Bad(less, stuck) + {found[i]} && Good(more, stuck) == Good(less, stuck);
    } else {
      assert Good(more, stuck) == Good(less, stuck) + {found[i]} && Bad(more, stuck) == Bad(less, stuck);
    }
  }

  lemma GoodAndBad(found: seq<Parent>, orphans: set<Parent>, stuck: set<Parent>)
    requires forall p :: p in found <==> p in orphans
    ensures Good(found, stuck) == orphans - stuck && Bad(found, stuck) == orphans * stuck
  {
  }

  lemma NothingGone(db: Db, consumers: seq<Consumer>, keys: seq<ForeignKey>, found: seq<Parent>, stuck: set<Parent>)
    ensures Good(found[..0], stuck) == {} && Bad(found[..0], stuck) == {}
    ensures Without(db, consumers, keys, {}) == db
  {
    var same := Without(db, consumers, keys, {});
    assert same.parents == db.parents;
    forall i | i in db.records ensures i in same.records {
      assert !GoesWithSome(db.records[i], consumers, keys, {});
    }
    assert same.records == db.records;
  }

  /** What the scan found is still an orphan when its turn comes. */
  lemma StillOrphan(db: Db, consumers: seq<Consumer>, keys: seq<ForeignKey>, layer: Layer, cutoff: int,
                    found: seq<Parent>, stuck: set<Parent>, p: Parent)
    requires Independent(consumers, keys, layer) && p in Orphans(db, consumers, layer, cutoff) && p !in found
    requires forall q :: q in found ==> q in Orphans(db, consumers, layer, cutoff)
    ensures LayerOf(p) == layer
    ensures Orphan(Without(db, consumers, keys, Good(found, stuck)), consumers, layer, cutoff, p)
  {
    UsesSurvive(db, consumers, keys, layer, Good(found, stuck), p);
    var after := Without(db, consumers, keys, Good(found, stuck));
    assert p in after.parents && after.parents[p] == db.parents[p];
  }

  lemma NoneStuck(before: Db, mid: Db, files: seq<Consumer>, blobs: seq<Consumer>, keys: seq<ForeignKey>,
                  fileCutoff: int, blobCutoff: int, stuck: set<Parent>)
    requires Fits(files, blobs, keys)
    requires mid == Swept(before, Consumers(files, keys, Files), keys, Files, fileCutoff, stuck)
    requires |Orphans(before, Consumers(files, keys, Files), Files, fileCutoff) * stuck| == 0
    requires |Orphans(mid, Consumers(blobs, keys, Blobs), Blobs, blobCutoff) * stuck| == 0
    ensures var after := Pass(before, files, blobs, keys, fileCutoff, blobCutoff, stuck);
      && Orphans(after, Consumers(files, keys, Files), Files, fileCutoff) == {}
      && Orphans(after, Consumers(blobs, keys, Blobs), Blobs, blobCutoff) == {}
  {
    hide Orphans, Swept, Consumers;
    SweptClear(before, Consumers(files, keys, Files), keys, Files, fileCutoff, stuck);
    SweptClear(mid, Consumers(blobs, keys, Blobs), keys, Blobs, blobCutoff, stuck);
    OnePassSuffices(before, files, blobs, keys, fileCutoff, blobCutoff, {});
  }

  lemma SweptClear(db: Db, consumers: seq<Consumer>, keys: seq<ForeignKey>, layer: Layer, cutoff: int, stuck: set<Parent>)
    requires |Orphans(db, consumers, layer, cutoff) * stuck| == 0
    ensures Swept(db, consumers, keys, layer, cutoff, stuck) == Swept(db, consumers, keys, layer, cutoff, {})
  {
    hide Orphans, Without;
    var all := Orphans(db, consumers, layer, cutoff);
    assert all * stuck == {};
    assert all - stuck == all - {};
  }
}
