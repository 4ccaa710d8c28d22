/**
 One pass of the two-layer reaper over a database nothing else touches: files,
 then blobs.  A consumer row may have several references, and a filter that is
 true, false or NULL of it.
 */
module Reaper {
  import opened Prelude

  datatype Layer = Files | Blobs
  datatype Parent = File(id: int) | Blob(address: string)

  function LayerOf(p: Parent): Layer {
    if p.File? then Files else Blobs
  }

  /** A consumer row: what its columns point at, and the value of each filter
      over it (no entry is NULL). */
  datatype Record = Record(table: string, refs: map<string, Parent>, verdicts: map<string, bool>)

  datatype Consumer = Consumer(table: string, column: string, filter: Option<string>)
  datatype ForeignKey = ForeignKey(table: string, column: string, layer: Layer, cascades: bool)

  /** Both parent tables (with created_at), and every row that may point into them. */
  datatype Db = Db(parents: map<Parent, int>, records: map<int, Record>)

  predicate IsTrue(r: Record, filter: string) {
    filter in r.verdicts && r.verdicts[filter]
  }

  predicate PointsAt(r: Record, table: string, column: string, p: Parent) {
    r.table == table && column in r.refs && r.refs[column] == p
  }

  /** The row keeps p alive: selected by the consumer's filter. */
  predicate Uses(r: Record, c: Consumer, p: Parent) {
    PointsAt(r, c.table, c.column, p) && (c.filter.Some? ==> IsTrue(r, c.filter.value))
  }

  /** What DELETE .. WHERE (filter) IS NOT TRUE takes. */
  predicate DeadFor(r: Record, c: Consumer, p: Parent) {
    PointsAt(r, c.table, c.column, p) && c.filter.Some? && !IsTrue(r, c.filter.value)
  }

  predicate Used(db: Db, consumers: seq<Consumer>, p: Parent) {
    exists i, k :: i in db.records && 0 <= k < |consumers| && Uses(db.records[i], consumers[k], p)
  }

  /** The row is p's own part: a cascading key. */
  predicate Owned(r: Record, keys: seq<ForeignKey>, p: Parent) {
    exists k :: 0 <= k < |keys| && keys[k].cascades && keys[k].layer == LayerOf(p) &&
      PointsAt(r, keys[k].table, keys[k].column, p)
  }

  predicate Dead(r: Record, consumers: seq<Consumer>, p: Parent) {
    exists k :: 0 <= k < |consumers| && DeadFor(r, consumers[k], p)
  }

  /** Deleting p now breaks a foreign key that does not cascade. */
  predicate Refused(records: map<int, Record>, keys: seq<ForeignKey>, p: Parent) {
    exists i, k :: i in records && 0 <= k < |keys| && !keys[k].cascades && keys[k].layer == LayerOf(p) &&
      PointsAt(records[i], keys[k].table, keys[k].column, p)
  }

  predicate ConsumesKey(c: Consumer, k: ForeignKey) {
    c.table == k.table && c.column == k.column
  }

  predicate Names(configured: seq<Consumer>, k: ForeignKey) {
    exists i :: 0 <= i < |configured| && ConsumesKey(configured[i], k)
  }

  /** The configured consumers, and every key into the layer they do not name. */
  function Consumers(configured: seq<Consumer>, keys: seq<ForeignKey>, layer: Layer): seq<Consumer> {
    if keys == [] then configured
    else
      var k := keys[|keys| - 1];
      Consumers(configured, keys[..|keys| - 1], layer) +
      (if k.layer == layer && !k.cascades && !Names(configured, k) then [Consumer(k.table, k.column, None)] else [])
  }

  predicate Orphan(db: Db, consumers: seq<Consumer>, layer: Layer, cutoff: int, p: Parent) {
    p in db.parents && LayerOf(p) == layer && db.parents[p] < cutoff && !Used(db, consumers, p)
  }

  function Orphans(db: Db, consumers: seq<Consumer>, layer: Layer, cutoff: int): set<Parent> {
    set p | p in db.parents && Orphan(db, consumers, layer, cutoff, p)
  }

  /** A row that goes with p: a dead reference to it, or its own part. */
  predicate GoesWith(r: Record, consumers: seq<Consumer>, keys: seq<ForeignKey>, p: Parent) {
    Dead(r, consumers, p) || Owned(r, keys, p)
  }

  predicate GoesWithSome(r: Record, consumers: seq<Consumer>, keys: seq<ForeignKey>, gone: set<Parent>) {
    exists p :: p in gone && GoesWith(r, consumers, keys, p)
  }

  /** The database without these parents and what goes with them. */
  function Without(db: Db, consumers: seq<Consumer>, keys: seq<ForeignKey>, gone: set<Parent>): Db {
    Db(db.parents - gone,
       map i | i in db.records && !GoesWithSome(db.records[i], consumers, keys, gone) :: db.records[i])
  }

  /** What one sweep leaves; `stuck` are parents whose reap fails. */
  function Swept(db: Db, consumers: seq<Consumer>, keys: seq<ForeignKey>, layer: Layer, cutoff: int,
                 stuck: set<Parent>): Db {
    Without(db, consumers, keys, Orphans(db, consumers, layer, cutoff) - stuck)
  }

  // ------------------------------------------------------- one reap is complete

  predicate Consumes(all: seq<Consumer>, k: ForeignKey) {
    exists i :: 0 <= i < |all| && ConsumesKey(all[i], k)
  }

  lemma ConsumesAt(all: seq<Consumer>, k: ForeignKey, i: nat)
    requires i < |all| && ConsumesKey(all[i], k)
    ensures Consumes(all, k)
  {
  }

  lemma {:induction false} EveryKeyIsConsumed(configured: seq<Consumer>, keys: seq<ForeignKey>, layer: Layer, k: int)
    requires 0 <= k < |keys| && keys[k].layer == layer && !keys[k].cascades
    ensures Consumes(Consumers(configured, keys, layer), keys[k])
  {
    var all, less := Consumers(configured, keys, layer), Consumers(configured, keys[..|keys| - 1], layer);
    if k < |keys| - 1 {
      EveryKeyIsConsumed(configured, keys[..|keys| - 1], layer, k);
      var i :| 0 <= i < |less| && ConsumesKey(less[i], keys[k]);
      ConsumesAt(all, keys[k], i);
    } else if Names(configured, keys[k]) {
      ConfiguredFirst(configured, keys, layer);
      var i :| 0 <= i < |configured| && ConsumesKey(configured[i], keys[k]);
      ConsumesAt(all, keys[k], i);
    } else {
      ConsumesAt(all, keys[k], |less|);
    }
  }

  lemma {:induction false} ConfiguredFirst(configured: seq<Consumer>, keys: seq<ForeignKey>, layer: Layer)
    ensures configured <= Consumers(configured, keys, layer)
  {
    if keys != [] { ConfiguredFirst(configured, keys[..|keys| - 1], layer); }
  }

  /** "Used" and "IS NOT TRUE" split every reference of a consumer: once p is
      unused and its dead references are gone, no foreign key refuses it. */
  lemma ReapIsNeverRefused(db: Db, configured: seq<Consumer>, keys: seq<ForeignKey>, p: Parent, records: map<int, Record>)
    requires !Used(db, Consumers(configured, keys, LayerOf(p)), p)
    requires forall i :: i in records ==>
      i in db.records && records[i] == db.records[i] && !Dead(records[i], Consumers(configured, keys, LayerOf(p)), p)
    ensures !Refused(records, keys, p)
    ensures forall i, k :: i in records && 0 <= k < |keys| && keys[k].layer == LayerOf(p) && !keys[k].cascades ==>
      !(records[i].table == keys[k].table && keys[k].column in records[i].refs && records[i].refs[keys[k].column] == p)
  {
    var consumers := Consumers(configured, keys, LayerOf(p));
    forall i, k | i in records && 0 <= k < |keys| && !keys[k].cascades && keys[k].layer == LayerOf(p)
      ensures !PointsAt(records[i], keys[k].table, keys[k].column, p)
    {
      EveryKeyIsConsumed(configured, keys, LayerOf(p), k);
      var j :| 0 <= j < |consumers| && ConsumesKey(consumers[j], keys[k]);
      assert !Uses(db.records[i], consumers[j], p) && !DeadFor(records[i], consumers[j], p);
    }
  }

  // --------------------------------------------- one reap leaves the others' uses

  /** Consumers of one table share one filter, and none of them is a part of the
      layer's own rows. */
  ghost predicate Independent(consumers: seq<Consumer>, keys: seq<ForeignKey>, layer: Layer) {
    && (forall a, b :: 0 <= a < |consumers| && 0 <= b < |consumers| && consumers[a].table == consumers[b].table ==>
         consumers[a].filter == consumers[b].filter)
    && (forall a, k :: 0 <= a < |consumers| && 0 <= k < |keys| && keys[k].cascades && keys[k].layer == layer ==>
         consumers[a].table != keys[k].table)
  }

  lemma UserStays(r: Record, consumers: seq<Consumer>, keys: seq<ForeignKey>, layer: Layer, gone: set<Parent>, k: int,
                  q: Parent)
    requires Independent(consumers, keys, layer) && 0 <= k < |consumers| && Uses(r, consumers[k], q)
    requires forall p :: p in gone ==> LayerOf(p) == layer
    ensures !GoesWithSome(r, consumers, keys, gone)
  {
    forall p | p in gone ensures !GoesWith(r, consumers, keys, p) {
      forall a | 0 <= a < |consumers| ensures !DeadFor(r, consumers[a], p) {
        if consumers[a].table == consumers[k].table { assert consumers[a].filter == consumers[k].filter; }
      }
    }
  }

  /** Reaping parents of a layer changes nobody else's use in it. */
  lemma UsesSurvive(db: Db, consumers: seq<Consumer>, keys: seq<ForeignKey>, layer: Layer, gone: set<Parent>, q: Parent)
    requires Independent(consumers, keys, layer) && forall p :: p in gone ==> LayerOf(p) == layer
    ensures Used(Without(db, consumers, keys, gone), consumers, q) <==> Used(db, consumers, q)
  {
    var after := Without(db, consumers, keys, gone);
    if Used(db, consumers, q) {
      var i, k :| i in db.records && 0 <= k < |consumers| && Uses(db.records[i], consumers[k], q);
      UserStays(db.records[i], consumers, keys, layer, gone, k, q);
      assert i in after.records && Uses(after.records[i], consumers[k], q);
    }
    if Used(after, consumers, q) {
      var i, k :| i in after.records && 0 <= k < |consumers| && Uses(after.records[i], consumers[k], q);
      assert Uses(db.records[i], consumers[k], q);
    }
  }

  /** One more parent gone. */
  lemma WithoutOneMore(db: Db, consumers: seq<Consumer>, keys: seq<ForeignKey>, gone: set<Parent>, p: Parent)
    ensures Without(Without(db, consumers, keys, gone), consumers, keys, {p}) == Without(db, consumers, keys, gone + {p})
  {
    var twice := Without(Without(db, consumers, keys, gone), consumers, keys, {p});
    var once := Without(db, consumers, keys, gone + {p});
    forall i | i in db.records ensures i in twice.records <==> i in once.records {
      GoesSplit(db.records[i], consumers, keys, gone, p);
    }
    assert twice.parents == once.parents;
  }

  lemma GoesSplit(r: Record, consumers: seq<Consumer>, keys: seq<ForeignKey>, gone: set<Parent>, p: Parent)
    ensures GoesWithSome(r, consumers, keys, gone + {p}) <==>
      GoesWithSome(r, consumers, keys, gone) || GoesWithSome(r, consumers, keys, {p})
  {
    hide GoesWith;
    assert GoesWith(r, consumers, keys, p) ==> p in {p};
  }

  // ----------------------------------------------------------- the whole pass

  /** The two layers do not share consumer tables, so sweeping one leaves the
      rows the other counts, except a file's own chunks. */
  ghost predicate Apart(files: seq<Consumer>, blobs: seq<Consumer>, keys: seq<ForeignKey>) {
    && (forall a, b :: 0 <= a < |files| && 0 <= b < |blobs| ==> files[a].table != blobs[b].table)
    && (forall a, k :: 0 <= a < |files| && 0 <= k < |keys| && keys[k].cascades ==> files[a].table != keys[k].table)
  }

  ghost predicate Fits(files: seq<Consumer>, blobs: seq<Consumer>, keys: seq<ForeignKey>) {
    && Independent(Consumers(files, keys, Files), keys, Files)
    && Independent(Consumers(blobs, keys, Blobs), keys, Blobs)
    && Apart(Consumers(files, keys, Files), Consumers(blobs, keys, Blobs), keys)
  }

  function Pass(db: Db, files: seq<Consumer>, blobs: seq<Consumer>, keys: seq<ForeignKey>,
                fileCutoff: int, blobCutoff: int, stuck: set<Parent>): Db {
    Swept(Swept(db, Consumers(files, keys, Files), keys, Files, fileCutoff, stuck),
          Consumers(blobs, keys, Blobs), keys, Blobs, blobCutoff, stuck)
  }

  /** What survives a sweep: the other layer, the young, the used, the stuck. */
  lemma SweepSurvivors(db: Db, consumers: seq<Consumer>, keys: seq<ForeignKey>, layer: Layer, cutoff: int,
                       stuck: set<Parent>, p: Parent)
    ensures p in Swept(db, consumers, keys, layer, cutoff, stuck).parents <==>
      p in db.parents && (LayerOf(p) != layer || db.parents[p] >= cutoff || Used(db, consumers, p) || p in stuck)
  {
  }

  lemma UsesAcross(db: Db, mine: seq<Consumer>, theirs: seq<Consumer>, keys: seq<ForeignKey>, gone: set<Parent>, q: Parent)
    requires forall a, b :: 0 <= a < |mine| && 0 <= b < |theirs| ==> mine[a].table != theirs[b].table
    requires forall a, k :: 0 <= a < |mine| && 0 <= k < |keys| && keys[k].cascades ==> mine[a].table != keys[k].table
    ensures Used(Without(db, theirs, keys, gone), mine, q) <==> Used(db, mine, q)
  {
    var after := Without(db, theirs, keys, gone);
    forall i, a | i in db.records && 0 <= a < |mine| && Uses(db.records[i], mine[a], q)
      ensures i in after.records
    {
      assert forall p | p in gone :: !GoesWith(db.records[i], theirs, keys, p);
    }
  }

  /** Nothing is left for a second pass: every survivor is young, used or stuck. */
  lemma OnePassSuffices(db: Db, files: seq<Consumer>, blobs: seq<Consumer>, keys: seq<ForeignKey>,
                        fileCutoff: int, blobCutoff: int, stuck: set<Parent>)
    requires Fits(files, blobs, keys)
    ensures var after := Pass(db, files, blobs, keys, fileCutoff, blobCutoff, stuck);
      && Orphans(after, Consumers(files, keys, Files), Files, fileCutoff) <= stuck
      && Orphans(after, Consumers(blobs, keys, Blobs), Blobs, blobCutoff) <= stuck
  {
    var fc, bc := Consumers(files, keys, Files), Consumers(blobs, keys, Blobs);
    var mid := Swept(db, fc, keys, Files, fileCutoff, stuck);
    var after := Pass(db, files, blobs, keys, fileCutoff, blobCutoff, stuck);
    hide Used;
    forall p | p in after.parents
      ensures Orphan(after, fc, Files, fileCutoff, p) ==> p in stuck
    {
      UsesAcross(mid, fc, bc, keys, Orphans(mid, bc, Blobs, blobCutoff) - stuck, p);
      UsesSurvive(db, fc, keys, Files, Orphans(db, fc, Files, fileCutoff) - stuck, p);
      SweepSurvivors(db, fc, keys, Files, fileCutoff, stuck, p);
    }
    forall p | p in after.parents
      ensures Orphan(after, bc, Blobs, blobCutoff, p) ==> p in stuck
    {
      UsesSurvive(mid, bc, keys, Blobs, Orphans(mid, bc, Blobs, blobCutoff) - stuck, p);
      SweepSurvivors(mid, bc, keys, Blobs, blobCutoff, stuck, p);
    }
  }

  /** The row is a chunk of a file that the pass removed. */
  predicate ChunkOfReaped(db: Db, r: Record, keys: seq<ForeignKey>, kept: Db) {
    exists f :: f in db.parents && f !in kept.parents && Owned(r, keys, f)
  }

  /** The surviving files and blobs, in terms of the database before the pass. */
  lemma PassSurvivors(db: Db, files: seq<Consumer>, blobs: seq<Consumer>, keys: seq<ForeignKey>,
                      fileCutoff: int, blobCutoff: int, stuck: set<Parent>, p: Parent)
    requires Fits(files, blobs, keys) && p in db.parents
    ensures var mid := Swept(db, Consumers(files, keys, Files), keys, Files, fileCutoff, stuck);
      p in Pass(db, files, blobs, keys, fileCutoff, blobCutoff, stuck).parents <==>
        if p.File? then db.parents[p] >= fileCutoff || Used(db, Consumers(files, keys, Files), p) || p in stuck
        else db.parents[p] >= blobCutoff || p in stuck || UsedByRest(db, Consumers(blobs, keys, Blobs), keys, mid, p)
  {
    var fc, bc := Consumers(files, keys, Files), Consumers(blobs, keys, Blobs);
    var mid := Swept(db, fc, keys, Files, fileCutoff, stuck);
    SweepSurvivors(db, fc, keys, Files, fileCutoff, stuck, p);
    SweepSurvivors(mid, bc, keys, Blobs, blobCutoff, stuck, p);
    if p.Blob? { BlobUse(db, fc, bc, keys, fileCutoff, stuck, p); }
  }

  /** Used by a row that is not a chunk of a reaped file. */
  predicate UsedByRest(db: Db, consumers: seq<Consumer>, keys: seq<ForeignKey>, kept: Db, p: Parent) {
    exists i, k :: i in db.records && 0 <= k < |consumers| && Uses(db.records[i], consumers[k], p) &&
      !ChunkOfReaped(db, db.records[i], keys, kept)
  }

  lemma BlobUse(db: Db, fc: seq<Consumer>, bc: seq<Consumer>, keys: seq<ForeignKey>, cutoff: int, stuck: set<Parent>,
                p: Parent)
    requires Apart(fc, bc, keys)
    ensures var mid := Swept(db, fc, keys, Files, cutoff, stuck);
      Used(mid, bc, p) <==> UsedByRest(db, bc, keys, mid, p)
  {
    var gone := Orphans(db, fc, Files, cutoff) - stuck;
    var mid := Without(db, fc, keys, gone);
    hide Uses, Owned;
    forall i, k | i in db.records && 0 <= k < |bc| && Uses(db.records[i], bc[k], p)
      ensures i in mid.records <==> !ChunkOfReaped(db, db.records[i], keys, mid)
    {
      NotDead(db.records[i], fc, bc[k], p, gone);
      assert forall f :: f in gone <==> f in db.parents && f !in mid.parents;
    }
  }

  lemma NotDead(r: Record, fc: seq<Consumer>, c: Consumer, p: Parent, gone: set<Parent>)
    requires Uses(r, c, p) && forall a :: 0 <= a < |fc| ==> fc[a].table != c.table
    ensures forall f :: f in gone ==> !Dead(r, fc, f)
  {
  }

  // ------------------------------------------------------------ the default set-up

  const LIVE := Some("deleted_at IS NULL")
  const FILE_CONSUMERS := [Consumer("attachment", "file_id", LIVE), Consumer("attachment", "thumb_file_id", LIVE)]
  const BLOB_CONSUMERS := [Consumer("file_chunk", "cas_address", None),
                           Consumer("portal_build_file", "cas_address", None), Consumer("theme_file", "cas_address", None)]
  const KEYS := [ForeignKey("attachment", "file_id", Files, false), ForeignKey("attachment", "thumb_file_id", Files, false),
                 ForeignKey("import_job", "file_id", Files, false), ForeignKey("file_chunk", "file_id", Files, true),
                 ForeignKey("file_chunk", "cas_address", Blobs, false), ForeignKey("cas_blob_data", "address", Blobs, true),
                 ForeignKey("cas_blob_holder", "address", Blobs, true)]

  lemma ConsumersStep(configured: seq<Consumer>, keys: seq<ForeignKey>, layer: Layer, k: ForeignKey)
    ensures Consumers(configured, keys + [k], layer) == Consumers(configured, keys, layer) +
      (if k.layer == layer && !k.cascades && !Names(configured, k) then [Consumer(k.table, k.column, None)] else [])
  {
    assert (keys + [k])[..|keys|] == keys;
  }

  lemma {:induction false} EveryConsumer(configured: seq<Consumer>, keys: seq<ForeignKey>, layer: Layer, good: Consumer -> bool)
    requires forall i :: 0 <= i < |configured| ==> good(configured[i])
    requires forall k :: 0 <= k < |keys| && keys[k].layer == layer && !keys[k].cascades && !Names(configured, keys[k]) ==>
      good(Consumer(keys[k].table, keys[k].column, None))
    ensures forall i :: 0 <= i < |Consumers(configured, keys, layer)| ==> good(Consumers(configured, keys, layer)[i])
  {
    if keys != [] { EveryConsumer(configured, keys[..|keys| - 1], layer, good); }
  }

  predicate OfFiles(c: Consumer) {
    (c.table == "attachment" && c.filter == LIVE) || (c.table == "import_job" && c.filter == None)
  }

  predicate OfBlobs(c: Consumer) {
    c.filter == None && (c.table == "file_chunk" || c.table == "portal_build_file" || c.table == "theme_file")
  }

  lemma DefaultConsumers(files: seq<Consumer>, blobs: seq<Consumer>)
    requires files == Consumers(FILE_CONSUMERS, KEYS, Files) && blobs == Consumers(BLOB_CONSUMERS, KEYS, Blobs)
    ensures forall i :: 0 <= i < |files| ==> OfFiles(files[i])
    ensures forall i :: 0 <= i < |blobs| ==> OfBlobs(blobs[i])
  {
    hide Consumers;
    assert ConsumesKey(FILE_CONSUMERS[0], KEYS[0]) && ConsumesKey(FILE_CONSUMERS[1], KEYS[1]);
    EveryConsumer(FILE_CONSUMERS, KEYS, Files, OfFiles);
    EveryConsumer(BLOB_CONSUMERS, KEYS, Blobs, OfBlobs);
  }

  /** kitp's own schema and consumer lists meet the conditions above. */
  lemma DefaultsFit()
    ensures Fits(FILE_CONSUMERS, BLOB_CONSUMERS, KEYS)
  {
    var files, blobs := Consumers(FILE_CONSUMERS, KEYS, Files), Consumers(BLOB_CONSUMERS, KEYS, Blobs);
    DefaultConsumers(files, blobs);
    hide Consumers;
    FitsByTable(files, blobs);
  }

  lemma FitsByTable(files: seq<Consumer>, blobs: seq<Consumer>)
    requires forall i :: 0 <= i < |files| ==> OfFiles(files[i])
    requires forall i :: 0 <= i < |blobs| ==> OfBlobs(blobs[i])
    ensures Independent(files, KEYS, Files) && Independent(blobs, KEYS, Blobs) && Apart(files, blobs, KEYS)
  {
    var parts := {"file_chunk", "cas_blob_data", "cas_blob_holder"};
    assert forall k | 0 <= k < |KEYS| && KEYS[k].cascades :: KEYS[k].table in parts;
    assert forall k | 0 <= k < |KEYS| && KEYS[k].cascades && KEYS[k].layer == Blobs :: KEYS[k].table != "file_chunk";
    TableNames();
  }

  lemma TableNames()
    ensures "attachment" != "import_job"
    ensures {"attachment", "import_job"} !! {"file_chunk", "portal_build_file", "theme_file", "cas_blob_data", "cas_blob_holder"}
    ensures {"file_chunk", "portal_build_file", "theme_file"} !! {"cas_blob_data", "cas_blob_holder"}
  {
    assert "attachment"[0] == 'a' && "import_job"[0] == 'i' && "file_chunk"[0] == 'f' && "portal_build_file"[0] == 'p';
    assert "theme_file"[0] == 't' && "cas_blob_data"[0] == 'c' && "cas_blob_holder"[0] == 'c';
  }
}
