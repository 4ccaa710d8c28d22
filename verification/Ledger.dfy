/**
 The schema ledger over any number of boots: the seed once, on an empty
 database only, and each forward migration once, in list order.
 */
module Ledger {
  import opened Prelude

  datatype Migration = Migration(id: string, sql: string)
  datatype Effect = Seeded | Ran(sql: string)

  const BASELINE := "baseline"

  /** `ledger` are the schema_version rows in the order they were written;
      `log` is what ran and was committed, `initialized` whether card types exist. */
  datatype State = State(ledger: seq<string>, log: seq<Effect>, initialized: bool)

  /** A boot's binary (how much of the append-only list it has, whether it has a
      seed), the statement that fails, if one does, and whether a commit that is
      reported as failed took effect all the same. */
  datatype Boot = Boot(known: nat, hasSeed: bool, failsAt: Option<nat>, commitLost: bool)

  function Ids(list: seq<Migration>): (ids: seq<string>)
    ensures |ids| == |list| && forall k :: 0 <= k < |list| ==> ids[k] == list[k].id
  {
    seq(|list|, i requires 0 <= i < |list| => list[i].id)
  }

  function Effects(list: seq<Migration>): (log: seq<Effect>)
    ensures |log| == |list| && forall k :: 0 <= k < |list| ==> log[k] == Ran(list[k].sql)
  {
    seq(|list|, i requires 0 <= i < |list| => Ran(list[i].sql))
  }

  /** One id each, and none of them the baseline's. */
  ghost predicate ListOk(list: seq<Migration>) {
    && (forall j, k :: 0 <= j < k < |list| ==> list[j].id != list[k].id)
    && (forall k :: 0 <= k < |list| ==> list[k].id != BASELINE)
  }

  /** The database: nothing recorded yet, or the baseline and the first n of the
      list, each run once in order behind the seed (if it ran at all). */
  ghost predicate Recorded(list: seq<Migration>, s: State, seeded: bool, n: nat)
    requires n <= |list|
  {
    s.ledger == [BASELINE] + Ids(list[..n]) && s.log == (if seeded then [Seeded] else []) + Effects(list[..n])
  }

  ghost predicate Fresh(s: State) {
    s.ledger == [] && s.log == []
  }

  class Database {
    var ledger: seq<string>
    var log: seq<Effect>
    var initialized: bool
    var statements: nat  // executed in this transaction

    function Value(): State
      reads this
    {
      State(ledger, log, initialized)
    }

    constructor (initialized: bool)
      ensures Fresh(Value()) && this.initialized == initialized
    {
      ledger, log, statements := [], [], 0;
      this.initialized := initialized;
    }

    /** A statement reaches the server, or its failure ends the transaction. */
    method Exec(boot: Boot) returns (err: bool)
      modifies this`statements
      ensures err <==> boot.failsAt == Some(old(statements))
      ensures statements == old(statements) + 1
    {
      err := boot.failsAt == Some(statements);
      statements := statements + 1;
    }

    /** The seed gate: seed an empty database, adopt a populated one, record either. */
    method Baseline(boot: Boot) returns (err: bool)
      modifies this
      ensures !err ==> BASELINE in old(ledger) ==> Value() == old(Value())
      ensures !err && BASELINE !in old(ledger) ==>
        Value() == State(old(ledger) + [BASELINE], old(log) + (if !old(initialized) && boot.hasSeed then [Seeded] else []),
                         old(initialized) || boot.hasSeed)
    {
      err := false;
      if BASELINE in ledger { return; }
      if !initialized && boot.hasSeed {
        err := Exec(boot);
        if err { return; }
        log, initialized := log + [Seeded], true;
      }
      err := Exec(boot);
      if !err { ledger := ledger + [BASELINE]; }
    }

    /** One migration, unless it is in the ledger. */
    method Apply(m: Migration, boot: Boot) returns (err: bool)
      modifies this
      ensures initialized == old(initialized)
      ensures !err ==> m.id in old(ledger) ==> Value() == old(Value())
      ensures !err && m.id !in old(ledger) ==> ledger == old(ledger) + [m.id] && log == old(log) + [Ran(m.sql)]
    {
      err := Exec(boot);
      if err || m.id in ledger { return; }
      err := Exec(boot);
      if err { return; }
      log := log + [Ran(m.sql)];
      err := Exec(boot);
      if !err { ledger := ledger + [m.id]; }
    }

    /** A boot takes effect as a whole or not at all.  One that works does; of
        those that fail, only one whose commit was made but not reported. */
    method ApplySchema(list: seq<Migration>, boot: Boot, ghost seeded: bool, ghost n: nat)
      returns (err: bool, applied: bool)
      requires ListOk(list) && boot.known <= |list| && n <= |list|
      requires Fresh(Value()) || Recorded(list, Value(), seeded, n)
      modifies this
      ensures (!err ==> applied) && (err && applied ==> boot.commitLost)
      ensures !applied ==> Value() == old(Value())
      ensures applied && old(Fresh(Value())) ==> Recorded(list, Value(), !old(initialized) && boot.hasSeed, boot.known)
      ensures applied && !old(Fresh(Value())) ==> Recorded(list, Value(), seeded, if boot.known > n then boot.known else n)
      ensures applied ==> initialized == (old(initialized) || (old(Fresh(Value())) && boot.hasSeed))
    {
      hide Recorded;
      var before := Value();
      statements, applied := 0, false;
      err := Baseline(boot);
      if !err {
        AfterBaseline(list, before, Value(), seeded, n, boot);
        ghost var had := if Fresh(before) then !before.initialized && boot.hasSeed else seeded;
        err := RunMigrations(list, boot, had, if Fresh(before) then 0 else n);
      }
      if !err {
        err := Exec(boot);  // the commit
        applied := !err || boot.commitLost;
      }
      if !applied { Restore(before); }
    }

    /** The loop over the list: everything not in the ledger yet, in order. */
    method RunMigrations(list: seq<Migration>, boot: Boot, ghost had: bool, ghost from: nat) returns (err: bool)
      requires ListOk(list) && boot.known <= |list| && from <= |list| && Recorded(list, Value(), had, from)
      modifies this
      ensures initialized == old(initialized)
      ensures !err ==> Recorded(list, Value(), had, if boot.known > from then boot.known else from)
    {
      hide Recorded, ListOk;
      err := false;
      var i := 0;
      while i < boot.known
        invariant 0 <= i <= boot.known && Recorded(list, Value(), had, if i > from then i else from)
        invariant initialized == old(initialized) && !err
      {
        ghost var s := Value();
        InLedger(list, s, had, if i > from then i else from, i);
        err := Apply(list[i], boot);
        if err { return; }
        RecordedOn(list, s, Value(), had, if i > from then i else from, i);
        i := i + 1;
      }
    }

    method Restore(s: State)
      modifies this
      ensures Value() == s
    {
      ledger, log, initialized := s.ledger, s.log, s.initialized;
    }
  }

  lemma AfterBaseline(list: seq<Migration>, before: State, after: State, seeded: bool, n: nat, boot: Boot)
    requires n <= |list| && (Fresh(before) || Recorded(list, before, seeded, n))
    requires BASELINE in before.ledger ==> after == before
    requires BASELINE !in before.ledger ==>
      after == State(before.ledger + [BASELINE], before.log + (if !before.initialized && boot.hasSeed then [Seeded] else []),
                     before.initialized || boot.hasSeed)
    ensures if Fresh(before) then Recorded(list, after, !before.initialized && boot.hasSeed, 0) else Recorded(list, after, seeded, n)
    ensures after.initialized == (before.initialized || (Fresh(before) && boot.hasSeed))
  {
    assert Ids(list[..0]) == [] && Effects(list[..0]) == [];
    if !Fresh(before) { assert before.ledger[0] == BASELINE; }
  }

  /** The i-th migration is recorded exactly when the ledger reaches past it. */
  lemma InLedger(list: seq<Migration>, s: State, seeded: bool, n: nat, i: nat)
    requires ListOk(list) && n <= |list| && i < |list| && i <= n && Recorded(list, s, seeded, n)
    ensures list[i].id in s.ledger <==> i < n
  {
    if i < n {
      assert s.ledger[i + 1] == list[i].id;
    } else {
      forall k | 0 <= k < |s.ledger| ensures s.ledger[k] != list[i].id {
        if k > 0 { assert s.ledger[k] == list[k - 1].id; }
      }
    }
  }

  /** The i-th migration is dealt with: it was recorded, or it is now. */
  lemma RecordedOn(list: seq<Migration>, s: State, s': State, seeded: bool, n: nat, i: nat)
    requires n <= |list| && i < |list| && i <= n && Recorded(list, s, seeded, n)
    requires if i < n then s' == s else s'.ledger == s.ledger + [list[i].id] && s'.log == s.log + [Ran(list[i].sql)]
    ensures Recorded(list, s', seeded, if i + 1 > n then i + 1 else n)
  {
    if i == n {
      assert Ids(list[..n + 1]) == Ids(list[..n]) + [list[n].id];
      assert Effects(list[..n + 1]) == Effects(list[..n]) + [Ran(list[n].sql)];
    }
  }

  // ------------------------------------------------------------------ many boots

  /** What some boots come to: how far the ledger is, and whether the seed ran. */
  datatype Course = Course(booted: bool, seeded: bool, n: nat, initialized: bool)

  function Follow(c: Course, boot: Boot, applied: bool): Course {
    if !applied then c
    else if !c.booted then Course(true, !c.initialized && boot.hasSeed, boot.known, c.initialized || boot.hasSeed)
    else c.(n := if boot.known > c.n then boot.known else c.n)
  }

  ghost predicate Matches(list: seq<Migration>, s: State, c: Course) {
    && c.n <= |list| && s.initialized == c.initialized
    && (if c.booted then Recorded(list, s, c.seeded, c.n) else Fresh(s))
  }

  /** A boot that did what ApplySchema says keeps the database to the course. */
  lemma Follows(list: seq<Migration>, before: State, after: State, c: Course, boot: Boot, applied: bool)
    requires boot.known <= |list| && Matches(list, before, c)
    requires !applied ==> after == before
    requires applied && Fresh(before) ==> Recorded(list, after, !before.initialized && boot.hasSeed, boot.known)
    requires applied && !Fresh(before) ==> Recorded(list, after, c.seeded, if boot.known > c.n then boot.known else c.n)
    requires applied ==> after.initialized == (before.initialized || (Fresh(before) && boot.hasSeed))
    ensures Matches(list, after, Follow(c, boot, applied))
  {
    if c.booted { assert before.ledger != []; }
    hide Recorded;
  }

  /** Any boots in any order, of any builds of one append-only list: what each
      reported, and whether it took effect. */
  method BootAll(db: Database, list: seq<Migration>, boots: seq<Boot>)
    returns (errs: seq<bool>, applied: seq<bool>, ghost course: Course)
    requires ListOk(list) && Fresh(db.Value()) && forall k :: 0 <= k < |boots| ==> boots[k].known <= |list|
    modifies db
    ensures |errs| == |applied| == |boots|
    ensures forall k :: 0 <= k < |boots| ==> (!errs[k] ==> applied[k]) && (errs[k] && applied[k] ==> boots[k].commitLost)
    ensures course == Run(Course(false, false, 0, old(db.initialized)), boots, applied)
    ensures Matches(list, db.Value(), course)
  {
    hide Recorded, Run, ListOk, Follow;
    errs, applied, course := [], [], Course(false, false, 0, db.initialized);
    NoBoots(course);
    ghost var start := course;
    for i := 0 to |boots|
      invariant |errs| == |applied| == i && course == Run(start, boots[..i], applied) && Matches(list, db.Value(), course)
      invariant forall k :: 0 <= k < i ==> (!errs[k] ==> applied[k]) && (errs[k] && applied[k] ==> boots[k].commitLost)
    {
      ghost var before := db.Value();
      var err, took := db.ApplySchema(list, boots[i], course.seeded, course.n);
      Follows(list, before, db.Value(), course, boots[i], took);
      RunSnoc(start, boots[..i], applied, boots[i], took);
      assert boots[..i + 1] == boots[..i] + [boots[i]];
      errs, applied, course := errs + [err], applied + [took], Follow(course, boots[i], took);
    }
    assert boots[..|boots|] == boots;
  }

  function Run(c: Course, boots: seq<Boot>, applied: seq<bool>): Course
    requires |applied| == |boots|
  {
    if boots == [] then c
    else Follow(Run(c, boots[..|boots| - 1], applied[..|boots| - 1]), boots[|boots| - 1], applied[|boots| - 1])
  }

  lemma NoBoots(c: Course)
    ensures Run(c, [], []) == c
  {
  }

  lemma RunSnoc(c: Course, boots: seq<Boot>, applied: seq<bool>, boot: Boot, took: bool)
    requires |applied| == |boots|
    ensures Run(c, boots + [boot], applied + [took]) == Follow(Run(c, boots, applied), boot, took)
  {
    assert (boots + [boot])[..|boots|] == boots && (applied + [took])[..|boots|] == applied;
  }

  function Most(boots: seq<Boot>, applied: seq<bool>): nat
    requires |applied| == |boots|
  {
    if boots == [] then 0
    else
      var before := Most(boots[..|boots| - 1], applied[..|boots| - 1]);
      if applied[|boots| - 1] && boots[|boots| - 1].known > before then boots[|boots| - 1].known else before
  }

  /** The first boot that took effect. */
  ghost predicate First(applied: seq<bool>, k: int) {
    0 <= k < |applied| && applied[k] && forall j :: 0 <= j < k ==> !applied[j]
  }

  /** The ledger is as long as the longest list of a boot that took effect, and
      the seed ran if and only if the database was empty and the first such boot had
      one. */
  lemma {:induction false} CourseOfBoots(c: Course, boots: seq<Boot>, applied: seq<bool>)
    requires |applied| == |boots| && !c.booted && !c.seeded && c.n == 0
    ensures var end := Run(c, boots, applied);
      && end.n == Most(boots, applied)
      && (end.booted <==> exists k :: 0 <= k < |boots| && applied[k])
      && (end.seeded <==> !c.initialized && exists k :: First(applied, k) && boots[k].hasSeed)
      && (!end.booted ==> end == c)
  {
    if boots != [] {
      var init, e := boots[..|boots| - 1], applied[..|boots| - 1];
      CourseOfBoots(c, init, e);
      assert forall k | 0 <= k < |e| :: applied[k] == e[k];
      assert forall k | 0 <= k < |e| :: First(applied, k) <==> First(e, k);
      if k :| 0 <= k < |init| && e[k] { assert applied[k]; }
      if k :| 0 <= k < |boots| && applied[k] { assert k < |init| ==> e[k]; }
    }
  }
}
