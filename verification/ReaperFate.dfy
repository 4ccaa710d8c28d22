/**
 What becomes of every parent and every row in one pass, told from the rows
 themselves: who points where, and what the filters say.
 */
module ReaperFate {
  import opened Prelude
  import opened Reaper

  /** The column is a configured consumer's, or an unfiltered one: a key into p's
      layer that does not cascade and that no configured consumer names. */
  ghost predicate Configured(configured: seq<Consumer>, table: string, column: string) {
    exists k :: 0 <= k < |configured| && configured[k].table == table && configured[k].column == column
  }

  ghost predicate ByKey(configured: seq<Consumer>, keys: seq<ForeignKey>, r: Record, p: Parent) {
    exists k :: 0 <= k < |keys| && !keys[k].cascades && (keys[k].layer == Files <==> p.File?) &&
      !Configured(configured, keys[k].table, keys[k].column) &&
      r.table == keys[k].table && keys[k].column in r.refs && r.refs[keys[k].column] == p
  }

  /** The row points at p and counts as using it: there is no filter, or it is true. */
  ghost predicate Live(configured: seq<Consumer>, keys: seq<ForeignKey>, r: Record, p: Parent) {
    || (exists k :: 0 <= k < |configured| && r.table == configured[k].table &&
         configured[k].column in r.refs && r.refs[configured[k].column] == p &&
         (configured[k].filter.Some? ==> configured[k].filter.value in r.verdicts && r.verdicts[configured[k].filter.value] == true))
    || ByKey(configured, keys, r, p)
  }

  /** The row points at p, but the filter is false of it, or NULL. */
  ghost predicate Lapsed(configured: seq<Consumer>, r: Record, p: Parent) {
    exists k :: 0 <= k < |configured| && r.table == configured[k].table &&
      configured[k].column in r.refs && r.refs[configured[k].column] == p && configured[k].filter.Some? &&
      (configured[k].filter.value !in r.verdicts || r.verdicts[configured[k].filter.value] == false)
  }

  /** The row cascades from p: a file's chunk, a blob's bytes. */
  ghost predicate Part(keys: seq<ForeignKey>, r: Record, p: Parent) {
    exists k :: 0 <= k < |keys| && keys[k].cascades && (keys[k].layer == Files <==> p.File?) &&
      r.table == keys[k].table && keys[k].column in r.refs && r.refs[keys[k].column] == p
  }

  lemma {:induction false} ConsumerComesFrom(configured: seq<Consumer>, keys: seq<ForeignKey>, layer: Layer, k: nat)
    requires k < |Consumers(configured, keys, layer)|
    ensures var c := Consumers(configured, keys, layer)[k];
      c in configured ||
      (c.filter.None? && !Configured(configured, c.table, c.column) &&
       exists j :: 0 <= j < |keys| && !keys[j].cascades && keys[j].layer == layer && keys[j].table == c.table && keys[j].column == c.column)
  {
    if keys != [] {
      var less := keys[..|keys| - 1];
      if k < |Consumers(configured, less, layer)| {
        ConsumerComesFrom(configured, less, layer, k);
        assert forall j | 0 <= j < |less| :: less[j] == keys[j];
      }
    }
  }

  lemma UsesIsLive(configured: seq<Consumer>, keys: seq<ForeignKey>, r: Record, p: Parent, all: seq<Consumer>)
    requires all == Consumers(configured, keys, LayerOf(p))
    ensures (exists k :: 0 <= k < |all| && Uses(r, all[k], p)) <==> Live(configured, keys, r, p)
  {
    hide Consumers;
    ConfiguredFirst(configured, keys, LayerOf(p));
    if k :| 0 <= k < |all| && Uses(r, all[k], p) {
      ConsumerComesFrom(configured, keys, LayerOf(p), k);
      if all[k] in configured {
        var j :| 0 <= j < |configured| && configured[j] == all[k];
      }
    }
    if Live(configured, keys, r, p) {
      if ByKey(configured, keys, r, p) {
        var k :| 0 <= k < |keys| && !keys[k].cascades && (keys[k].layer == Files <==> p.File?) &&
          !Configured(configured, keys[k].table, keys[k].column) &&
          r.table == keys[k].table && keys[k].column in r.refs && r.refs[keys[k].column] == p;
        EveryKeyIsConsumed(configured, keys, LayerOf(p), k);
        var j :| 0 <= j < |all| && ConsumesKey(all[j], keys[k]);
        ConsumerComesFrom(configured, keys, LayerOf(p), j);
        assert all[j] !in configured;
        assert Uses(r, all[j], p);
      } else {
        var k :| 0 <= k < |configured| && r.table == configured[k].table &&
          configured[k].column in r.refs && r.refs[configured[k].column] == p &&
          (configured[k].filter.Some? ==> configured[k].filter.value in r.verdicts && r.verdicts[configured[k].filter.value] == true);
        assert all[k] == configured[k] && Uses(r, all[k], p);
      }
    }
  }

  lemma DeadIsLapsed(configured: seq<Consumer>, keys: seq<ForeignKey>, r: Record, p: Parent)
    ensures Dead(r, Consumers(configured, keys, LayerOf(p)), p) <==> Lapsed(configured, r, p)
  {
    var all := Consumers(configured, keys, LayerOf(p));
    hide Consumers;
    ConfiguredFirst(configured, keys, LayerOf(p));
    if k :| 0 <= k < |all| && DeadFor(r, all[k], p) {
      ConsumerComesFrom(configured, keys, LayerOf(p), k);
      var j :| 0 <= j < |configured| && configured[j] == all[k];
    }
    if Lapsed(configured, r, p) {
      var k :| 0 <= k < |configured| && r.table == configured[k].table &&
        configured[k].column in r.refs && r.refs[configured[k].column] == p && configured[k].filter.Some? &&
        (configured[k].filter.value !in r.verdicts || r.verdicts[configured[k].filter.value] == false);
      assert all[k] == configured[k] && DeadFor(r, all[k], p);
    }
  }

  lemma OwnedIsPart(keys: seq<ForeignKey>, r: Record, p: Parent)
    ensures Owned(r, keys, p) <==> Part(keys, r, p)
  {
  }

  // ------------------------------------------------------------------ the pass

  /** Some row that stays, or would but for p itself, uses p. */
  ghost predicate InUse(db: Db, after: Db, configured: seq<Consumer>, keys: seq<ForeignKey>, p: Parent) {
    exists i :: i in db.records && Live(configured, keys, db.records[i], p) && !GoesWithAFile(db, after, keys, db.records[i])
  }

  /** The row is a chunk of a file that the pass removed. */
  ghost predicate GoesWithAFile(db: Db, after: Db, keys: seq<ForeignKey>, r: Record) {
    exists f: Parent :: f.File? && f in db.parents && f !in after.parents && Part(keys, r, f)
  }

  /** The row goes: a lapsed reference to, or a part of, something removed. */
  ghost predicate RowGoes(db: Db, after: Db, files: seq<Consumer>, blobs: seq<Consumer>, keys: seq<ForeignKey>, r: Record) {
    exists p :: p in db.parents && p !in after.parents &&
      (Lapsed(if p.File? then files else blobs, r, p) || Part(keys, r, p))
  }

  /** A pass: a parent stays exactly while it is young, stuck, or used by a row that
      is not itself a chunk of a file removed; a row stays exactly unless it is
      a lapsed reference to, or a part of, a parent removed. */
  ghost predicate PassIs(db: Db, after: Db, files: seq<Consumer>, blobs: seq<Consumer>, keys: seq<ForeignKey>,
                         fileCutoff: int, blobCutoff: int, stuck: set<Parent>) {
    && (forall p :: p in after.parents <==>
         p in db.parents && (db.parents[p] >= (if p.File? then fileCutoff else blobCutoff) || p in stuck ||
                             InUse(db, after, if p.File? then files else blobs, keys, p)))
    && (forall p :: p in after.parents ==> after.parents[p] == db.parents[p])
    && (forall i :: i in after.records <==> i in db.records && !RowGoes(db, after, files, blobs, keys, db.records[i]))
    && (forall i :: i in after.records ==> after.records[i] == db.records[i])
  }

  lemma GoesIsRaw(db: Db, configured: seq<Consumer>, keys: seq<ForeignKey>, r: Record, p: Parent)
    ensures GoesWith(r, Consumers(configured, keys, LayerOf(p)), keys, p) <==> Lapsed(configured, r, p) || Part(keys, r, p)
  {
    DeadIsLapsed(configured, keys, r, p);
    OwnedIsPart(keys, r, p);
    hide Dead, Owned, Lapsed, Part, Consumers;
  }

  lemma RowsOfPass(db: Db, files: seq<Consumer>, blobs: seq<Consumer>, keys: seq<ForeignKey>,
                   fileCutoff: int, blobCutoff: int, stuck: set<Parent>, i: int)
    requires i in db.records
    ensures var after := Pass(db, files, blobs, keys, fileCutoff, blobCutoff, stuck);
      && (i in after.records <==> !RowGoes(db, after, files, blobs, keys, db.records[i]))
      && (i in after.records ==> after.records[i] == db.records[i])
  {
    var fc, bc := Consumers(files, keys, Files), Consumers(blobs, keys, Blobs);
    var goneF := Orphans(db, fc, Files, fileCutoff) - stuck;
    var mid := Without(db, fc, keys, goneF);
    var goneB := Orphans(mid, bc, Blobs, blobCutoff) - stuck;
    var after := Without(mid, bc, keys, goneB);
    var r := db.records[i];
    assert forall p :: p in goneF ==> p.File? && p in db.parents;
    assert forall p :: p in goneB ==> p.Blob? && p in db.parents;
    assert forall p :: p in db.parents && p !in after.parents <==> p in goneF || p in goneB;
    forall p | p in goneF ensures GoesWith(r, fc, keys, p) <==> Lapsed(files, r, p) || Part(keys, r, p) {
      GoesIsRaw(db, files, keys, r, p);
    }
    forall p | p in goneB ensures GoesWith(r, bc, keys, p) <==> Lapsed(blobs, r, p) || Part(keys, r, p) {
      GoesIsRaw(db, blobs, keys, r, p);
    }
    hide GoesWith, Lapsed, Part, Consumers, Orphans;
    assert i in after.records <==> !GoesWithSome(r, fc, keys, goneF) && !GoesWithSome(r, bc, keys, goneB);
  }

  lemma UsedIsInUse(db: Db, configured: seq<Consumer>, keys: seq<ForeignKey>, p: Parent)
    ensures Used(db, Consumers(configured, keys, LayerOf(p)), p) <==>
      exists i :: i in db.records && Live(configured, keys, db.records[i], p)
  {
    var all := Consumers(configured, keys, LayerOf(p));
    forall i | i in db.records
      ensures (exists k :: 0 <= k < |all| && Uses(db.records[i], all[k], p)) <==> Live(configured, keys, db.records[i], p)
    {
      UsesIsLive(configured, keys, db.records[i], p, all);
    }
    hide Uses, Live, Consumers;
    if i :| i in db.records && Live(configured, keys, db.records[i], p) {
      var k :| 0 <= k < |all| && Uses(db.records[i], all[k], p);
    }
  }

  /** A row that uses a file is no chunk. */
  lemma UserIsNoChunk(files: seq<Consumer>, keys: seq<ForeignKey>, r: Record, p: Parent, f: Parent)
    requires Independent(Consumers(files, keys, Files), keys, Files) && p.File? && f.File? && Live(files, keys, r, p)
    ensures !Part(keys, r, f)
  {
    var all := Consumers(files, keys, Files);
    UsesIsLive(files, keys, r, p, all);
    var k :| 0 <= k < |all| && Uses(r, all[k], p);
    hide Consumers;
  }

  lemma ParentsOfPass(db: Db, files: seq<Consumer>, blobs: seq<Consumer>, keys: seq<ForeignKey>,
                      fileCutoff: int, blobCutoff: int, stuck: set<Parent>, p: Parent)
    requires Fits(files, blobs, keys) && p in db.parents
    ensures var after := Pass(db, files, blobs, keys, fileCutoff, blobCutoff, stuck);
      p in after.parents <==>
        db.parents[p] >= (if p.File? then fileCutoff else blobCutoff) || p in stuck ||
        InUse(db, after, if p.File? then files else blobs, keys, p)
  {
    var after := Pass(db, files, blobs, keys, fileCutoff, blobCutoff, stuck);
    PassSurvivors(db, files, blobs, keys, fileCutoff, blobCutoff, stuck, p);
    if p.File? {
      UsedIsInUse(db, files, keys, p);
      forall i | i in db.records && Live(files, keys, db.records[i], p) ensures !GoesWithAFile(db, after, keys, db.records[i]) {
        forall f: Parent | f.File? ensures !Part(keys, db.records[i], f) { UserIsNoChunk(files, keys, db.records[i], p, f); }
      }
      hide Pass, Live, Used, Fits;
    } else {
      BlobInUse(db, files, blobs, keys, fileCutoff, blobCutoff, stuck, p);
      hide Pass, Live, UsedByRest, Fits, Swept;
    }
  }

  lemma BlobInUse(db: Db, files: seq<Consumer>, blobs: seq<Consumer>, keys: seq<ForeignKey>,
                  fileCutoff: int, blobCutoff: int, stuck: set<Parent>, p: Parent)
    requires p.Blob?
    ensures var mid := Swept(db, Consumers(files, keys, Files), keys, Files, fileCutoff, stuck);
      UsedByRest(db, Consumers(blobs, keys, Blobs), keys, mid, p) <==>
        InUse(db, Pass(db, files, blobs, keys, fileCutoff, blobCutoff, stuck), blobs, keys, p)
  {
    var all := Consumers(blobs, keys, Blobs);
    var mid := Swept(db, Consumers(files, keys, Files), keys, Files, fileCutoff, stuck);
    var after := Pass(db, files, blobs, keys, fileCutoff, blobCutoff, stuck);
    assert forall f :: f in db.parents && f !in mid.parents <==> f.File? && f in db.parents && f !in after.parents;
    hide Swept, Pass;
    forall i | i in db.records
      ensures (exists k :: 0 <= k < |all| && Uses(db.records[i], all[k], p)) <==> Live(blobs, keys, db.records[i], p)
      ensures ChunkOfReaped(db, db.records[i], keys, mid) <==> GoesWithAFile(db, after, keys, db.records[i])
    {
      UsesIsLive(blobs, keys, db.records[i], p, all);
      forall f ensures Owned(db.records[i], keys, f) <==> Part(keys, db.records[i], f) { OwnedIsPart(keys, db.records[i], f); }
      hide Owned, Part, Live, Uses, Consumers;
    }
    hide Uses, Live, Consumers, ChunkOfReaped, GoesWithAFile;
    if i :| i in db.records && Live(blobs, keys, db.records[i], p) && !GoesWithAFile(db, after, keys, db.records[i]) {
      var k :| 0 <= k < |all| && Uses(db.records[i], all[k], p);
    }
  }

  lemma PassTells(db: Db, files: seq<Consumer>, blobs: seq<Consumer>, keys: seq<ForeignKey>,
                  fileCutoff: int, blobCutoff: int, stuck: set<Parent>)
    requires Fits(files, blobs, keys)
    ensures PassIs(db, Pass(db, files, blobs, keys, fileCutoff, blobCutoff, stuck), files, blobs, keys, fileCutoff, blobCutoff, stuck)
  {
    var after := Pass(db, files, blobs, keys, fileCutoff, blobCutoff, stuck);
    assert forall p :: p in after.parents ==> p in db.parents && after.parents[p] == db.parents[p];
    assert forall i :: i in after.records ==> i in db.records;
    forall p | p in db.parents
      ensures p in after.parents <==>
        db.parents[p] >= (if p.File? then fileCutoff else blobCutoff) || p in stuck ||
        InUse(db, after, if p.File? then files else blobs, keys, p)
    {
      ParentsOfPass(db, files, blobs, keys, fileCutoff, blobCutoff, stuck, p);
    }
    forall i | i in db.records
      ensures (i in after.records <==> !RowGoes(db, after, files, blobs, keys, db.records[i])) &&
        (i in after.records ==> after.records[i] == db.records[i])
    {
      RowsOfPass(db, files, blobs, keys, fileCutoff, blobCutoff, stuck, i);
    }
    hide Pass, Fits, InUse, RowGoes;
  }

  /** A row in live use keeps what it points at, and stays, unless it is a chunk of
      a file removed. */
  lemma LiveStays(db: Db, after: Db, files: seq<Consumer>, blobs: seq<Consumer>, keys: seq<ForeignKey>,
                  fileCutoff: int, blobCutoff: int, stuck: set<Parent>, i: int, p: Parent)
    requires Fits(files, blobs, keys) && after == Pass(db, files, blobs, keys, fileCutoff, blobCutoff, stuck)
    requires p in db.parents && i in db.records && Live(if p.File? then files else blobs, keys, db.records[i], p)
    requires !GoesWithAFile(db, after, keys, db.records[i])
    ensures p in after.parents
    ensures i in after.records
  {
    PassTells(db, files, blobs, keys, fileCutoff, blobCutoff, stuck);
    RowsOfPass(db, files, blobs, keys, fileCutoff, blobCutoff, stuck, i);
    var r, layer := db.records[i], LayerOf(p);
    var all := Consumers(if p.File? then files else blobs, keys, layer);
    UsesIsLive(if p.File? then files else blobs, keys, r, p, all);
    var k :| 0 <= k < |all| && Uses(r, all[k], p);
    hide Pass, Live;
    forall q | q in db.parents && q !in after.parents
      ensures !Lapsed(if q.File? then files else blobs, r, q) && !Part(keys, r, q)
    {
      UserGoesWithNone(files, blobs, keys, r, p, k, q);
      if q.File? { assert !Part(keys, r, q); }
    }
  }

  lemma UserGoesWithNone(files: seq<Consumer>, blobs: seq<Consumer>, keys: seq<ForeignKey>, r: Record, p: Parent, k: int, q: Parent)
    requires Fits(files, blobs, keys)
    requires var all := Consumers(if p.File? then files else blobs, keys, LayerOf(p)); 0 <= k < |all| && Uses(r, all[k], p)
    ensures !Lapsed(if q.File? then files else blobs, r, q)
    ensures q.Blob? ==> !Part(keys, r, q)
  {
    var fc, bc := Consumers(files, keys, Files), Consumers(blobs, keys, Blobs);
    DeadIsLapsed(if q.File? then files else blobs, keys, r, q);
    OwnedIsPart(keys, r, q);
    hide Consumers;
    if LayerOf(p) == LayerOf(q) {
      UserStays(r, if p.File? then fc else bc, keys, LayerOf(p), {q}, k, p);
      assert !GoesWith(r, if p.File? then fc else bc, keys, q);
    }
  }
}
