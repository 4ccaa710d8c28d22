/**
 Authorization against cards loaded once for the whole batch: the walks up the
 parent links, what they need loaded, and the decisions taken from them.
 */
module Scope {
  import opened Prelude

  const DEPTH := 16

  datatype Card = Card(parent: Option<int>, cardType: int, privateTo: Option<int>)

  type Cards = map<int, Card>

  /** The k-th card on the chain from start, while there is one. */
  function Up(cards: Cards, start: int, k: nat): (id: Option<int>)
    ensures id.Some? ==> id.value in cards
  {
    if k == 0 then (if start in cards then Some(start) else None)
    else
      match Up(cards, start, k - 1)
      case None => None
      case Some(below) =>
        if cards[below].parent.Some? && cards[below].parent.value in cards then cards[below].parent else None
  }

  /** The nearest card on the chain that `hit` picks, looking at `fuel` cards. */
  function Walk(cards: Cards, start: int, hit: Card -> bool, fuel: nat): (id: Option<int>)
    ensures id.Some? ==> id.value in cards && hit(cards[id.value])
    decreases fuel
  {
    if fuel == 0 || start !in cards then None
    else if hit(cards[start]) then Some(start)
    else if cards[start].parent.None? then None
    else Walk(cards, cards[start].parent.value, hit, fuel - 1)
  }

  lemma {:induction false} UpStep(cards: Cards, start: int, k: nat)
    requires start in cards
    ensures Up(cards, start, k + 1) ==
      if cards[start].parent.None? then None else Up(cards, cards[start].parent.value, k)
  {
    if k > 0 { UpStep(cards, start, k - 1); }
  }

  /** p is `hit`, and nothing nearer on the chain is. */
  ghost predicate NearestAt(cards: Cards, start: int, hit: Card -> bool, k: nat, p: int) {
    && Up(cards, start, k) == Some(p) && hit(cards[p])
    && forall j: nat :: j < k ==> Up(cards, start, j).Some? && !hit(cards[Up(cards, start, j).value])
  }

  /** The walk finds the nearest match within its reach, and nothing else:
      cycles or not. */
  lemma {:induction false} WalkIsNearest(cards: Cards, start: int, hit: Card -> bool, fuel: nat, p: int)
    ensures Walk(cards, start, hit, fuel) == Some(p) <==> exists k: nat :: k < fuel && NearestAt(cards, start, hit, k, p)
    decreases fuel
  {
    if fuel > 0 && start in cards {
      if hit(cards[start]) {
        assert Up(cards, start, 0) == Some(start);
        if p == start { assert NearestAt(cards, start, hit, 0, p); }
      } else {
        forall k: nat | k > 0
          ensures NearestAt(cards, start, hit, k, p) <==>
            cards[start].parent.Some? && NearestAt(cards, cards[start].parent.value, hit, k - 1, p)
        {
          NearestStep(cards, start, hit, k - 1, p);
        }
        assert !NearestAt(cards, start, hit, 0, p);
        if cards[start].parent.Some? { WalkIsNearest(cards, cards[start].parent.value, hit, fuel - 1, p); }
        Shift(cards, start, hit, fuel, p);
      }
    } else if start !in cards {
      forall k: nat ensures !NearestAt(cards, start, hit, k, p) {
        NothingUp(cards, start, k);
      }
    }
  }

  lemma {:induction false} NothingUp(cards: Cards, start: int, k: nat)
    requires start !in cards
    ensures Up(cards, start, k) == None
  {
    if k > 0 { NothingUp(cards, start, k - 1); }
  }

  lemma NearestStep(cards: Cards, start: int, hit: Card -> bool, k: nat, p: int)
    requires start in cards && !hit(cards[start])
    ensures NearestAt(cards, start, hit, k + 1, p) <==>
      cards[start].parent.Some? && NearestAt(cards, cards[start].parent.value, hit, k, p)
  {
    UpStep(cards, start, k);
    assert Up(cards, start, 0) == Some(start);
    if cards[start].parent.Some? {
      var up := cards[start].parent.value;
      forall j: nat | j < k ensures Up(cards, up, j) == Up(cards, start, j + 1) {
        UpStep(cards, start, j);
      }
      if NearestAt(cards, up, hit, k, p) {
        forall j: nat | j < k + 1 ensures Up(cards, start, j).Some? && !hit(cards[Up(cards, start, j).value]) {
          if j > 0 { assert Up(cards, up, j - 1) == Up(cards, start, j); }
        }
      }
    }
  }

  lemma Shift(cards: Cards, start: int, hit: Card -> bool, fuel: nat, p: int)
    requires fuel > 0 && start in cards && !NearestAt(cards, start, hit, 0, p)
    requires forall k: nat :: k > 0 ==>
      (NearestAt(cards, start, hit, k, p) <==>
        cards[start].parent.Some? && NearestAt(cards, cards[start].parent.value, hit, k - 1, p))
    ensures (exists k: nat :: k < fuel && NearestAt(cards, start, hit, k, p)) <==>
      cards[start].parent.Some? && exists k: nat :: k < fuel - 1 && NearestAt(cards, cards[start].parent.value, hit, k, p)
  {
    hide NearestAt;
    if k: nat :| k < fuel && NearestAt(cards, start, hit, k, p) {
      assert k > 0;
      assert NearestAt(cards, cards[start].parent.value, hit, k - 1, p);
    }
    if cards[start].parent.Some? {
      if k: nat :| k < fuel - 1 && NearestAt(cards, cards[start].parent.value, hit, k, p) {
        assert NearestAt(cards, start, hit, k + 1, p);
      }
    }
  }

  function IsProject(projectType: int): Card -> bool {
    (c: Card) => c.cardType == projectType
  }

  function IsPrivate(): Card -> bool {
    (c: Card) => c.privateTo.Some?
  }

  /** 0 when there is no project within reach. */
  method ResolveTargetProject(start: int, projectType: int, lookup: Cards) returns (project: int)
    ensures project == Target(lookup, start, projectType)
  {
    var cur := start;
    for i := 0 to DEPTH
      invariant Walk(lookup, start, IsProject(projectType), DEPTH) == Walk(lookup, cur, IsProject(projectType), DEPTH - i)
    {
      if cur !in lookup { return 0; }
      if lookup[cur].cardType == projectType { return cur; }
      if lookup[cur].parent.None? { return 0; }
      cur := lookup[cur].parent.value;
    }
    return 0;
  }

  function Target(cards: Cards, start: int, projectType: int): int {
    var p := Walk(cards, start, IsProject(projectType), DEPTH);
    if p.Some? then p.value else 0
  }

  method PrivateOwner(start: int, lookup: Cards) returns (owner: Option<int>)
    ensures owner == Owner(lookup, start)
  {
    var cur := start;
    for i := 0 to DEPTH
      invariant Walk(lookup, start, IsPrivate(), DEPTH) == Walk(lookup, cur, IsPrivate(), DEPTH - i)
    {
      if cur !in lookup { return None; }
      if lookup[cur].privateTo.Some? { return lookup[cur].privateTo; }
      if lookup[cur].parent.None? { return None; }
      cur := lookup[cur].parent.value;
    }
    return None;
  }

  function Owner(cards: Cards, start: int): Option<int> {
    var p := Walk(cards, start, IsPrivate(), DEPTH);
    if p.Some? then cards[p.value].privateTo else None
  }

  // ------------------------------------------------------------------ preloading

  /** The rows of the recursive query at one depth. */
  function Level(cards: Cards, seeds: set<int>, depth: nat): (ids: set<int>)
    ensures forall id :: id in ids ==> id in cards
  {
    if depth == 0 then set id | id in seeds && id in cards
    else ParentsOf(cards, Level(cards, seeds, depth - 1))
  }

  function ParentsOf(cards: Cards, ids: set<int>): (up: set<int>)
    ensures forall id :: id in up ==> id in cards
  {
    set id | id in ids && id in cards && cards[id].parent.Some? && cards[id].parent.value in cards :: cards[id].parent.value
  }

  function Reached(cards: Cards, seeds: set<int>, depth: nat): (ids: set<int>)
    ensures forall id :: id in ids ==> id in cards
  {
    if depth == 0 then Level(cards, seeds, 0) else Reached(cards, seeds, depth - 1) + Level(cards, seeds, depth)
  }

  function Restrict(cards: Cards, ids: set<int>): Cards {
    map id | id in ids && id in cards :: cards[id]
  }

  /** preloadCards, then expandCardLookup: the seeds, and sixteen levels up. */
  method Preload(cards: Cards, seeds: set<int>) returns (lookup: Cards)
    ensures lookup == Restrict(cards, Reached(cards, seeds, DEPTH))
  {
    var frontier := set id | id in seeds && id in cards;
    lookup := Restrict(cards, frontier);
    for d := 0 to DEPTH
      invariant frontier == Level(cards, seeds, d)
      invariant lookup == Restrict(cards, Reached(cards, seeds, d))
    {
      frontier := ParentsOf(cards, frontier);
      lookup := lookup + Restrict(cards, frontier);
      MergeRows(cards, Reached(cards, seeds, d), Level(cards, seeds, d + 1));
    }
  }

  lemma MergeRows(cards: Cards, a: set<int>, b: set<int>)
    ensures Restrict(cards, a) + Restrict(cards, b) == Restrict(cards, a + b)
  {
  }

  lemma {:induction false} LevelIsReached(cards: Cards, seeds: set<int>, d: nat, depth: nat)
    requires d <= depth
    ensures Level(cards, seeds, d) <= Reached(cards, seeds, depth)
  {
    if d < depth { LevelIsReached(cards, seeds, d, depth - 1); }
  }

  lemma {:induction false} SameWalk(cards: Cards, seeds: set<int>, start: int, hit: Card -> bool, d: nat, fuel: nat)
    requires start in Level(cards, seeds, d) || start !in cards
    requires d + fuel <= DEPTH + 1
    decreases fuel
    ensures Walk(Restrict(cards, Reached(cards, seeds, DEPTH)), start, hit, fuel) == Walk(cards, start, hit, fuel)
  {
    if fuel > 0 && start in cards && !hit(cards[start]) && cards[start].parent.Some? {
      LevelIsReached(cards, seeds, d, DEPTH);
      assert cards[start].parent.value in cards ==> cards[start].parent.value in Level(cards, seeds, d + 1);
      SameWalk(cards, seeds, cards[start].parent.value, hit, d + 1, fuel - 1);
    } else if start in cards && fuel > 0 {
      LevelIsReached(cards, seeds, d, DEPTH);
    }
  }

  /** Both walks over what was loaded answer as over the whole card table. */
  lemma LoadedIsEnough(cards: Cards, seeds: set<int>, start: int, projectType: int)
    requires start in seeds
    ensures var lookup := Restrict(cards, Reached(cards, seeds, DEPTH));
      && Target(lookup, start, projectType) == Target(cards, start, projectType)
      && Owner(lookup, start) == Owner(cards, start)
      && (start in lookup <==> start in cards)
  {
    LevelIsReached(cards, seeds, 0, DEPTH);
    SameWalk(cards, seeds, start, IsProject(projectType), 0, DEPTH);
    SameWalk(cards, seeds, start, IsPrivate(), 0, DEPTH);
  }

  // ------------------------------------------------------------------- decisions

  /** What a leaf aims at: card.insert's parent, or the card its handler names (0: none). */
  datatype Aim = Insert(parent: Option<int>, isProject: bool, makesPrivate: bool) | Aim(card: int)

  /** `gated` handlers have a process and a card type; `seeded` says the process
      exists; `owner` handlers may run on one's own private card without a grant. */
  datatype Leaf = Leaf(gated: bool, cardType: int, process: string, seeded: bool, owner: bool, aim: Aim)

  datatype Grant = Grant(cardType: int, process: string, scope: Option<int>)

  datatype Verdict = Allow | Deny | NoPerson | Foreign

  function Anchor(leaf: Leaf): int {
    match leaf.aim
    case Insert(parent, _, _) => if parent.Some? then parent.value else 0
    case Aim(card) => card
  }

  /** Does the leaf name a card at all? */
  predicate Anchored(leaf: Leaf) {
    Anchor(leaf) != 0 || (leaf.aim.Insert? && leaf.aim.parent.Some?)
  }

  predicate Matches(g: Grant, leaf: Leaf, project: int) {
    g.cardType == leaf.cardType && g.process == leaf.process &&
    (g.scope.None? || (project != 0 && g.scope.value == project))
  }

  function TargetOf(cards: Cards, leaf: Leaf, projectType: int): int {
    if !Anchored(leaf) then 0 else Target(cards, Anchor(leaf), projectType)
  }

  predicate Granted(cards: Cards, leaf: Leaf, grants: seq<Grant>, projectType: int) {
    !leaf.gated || leaf.cardType == 0 || !leaf.seeded ||
    exists k :: 0 <= k < |grants| && Matches(grants[k], leaf, TargetOf(cards, leaf, projectType))
  }

  /** What the private card the leaf aims at says; None: go on to the grants. */
  function PrivateVerdict(cards: Cards, leaf: Leaf, person: Option<int>): Option<Verdict> {
    if !leaf.gated then None
    else if leaf.aim.Insert? && leaf.aim.makesPrivate then Some(if person.None? then NoPerson else Allow)
    else if Anchor(leaf) == 0 then None
    else
      var owner := Owner(cards, Anchor(leaf));
      if owner.None? then None
      else if person == owner then (if leaf.owner then Some(Allow) else None)
      else Some(Foreign)
  }

  function Decide(cards: Cards, leaf: Leaf, grants: seq<Grant>, person: Option<int>, projectType: int): Verdict {
    var p := PrivateVerdict(cards, leaf, person);
    if p.Some? then p.value else if Granted(cards, leaf, grants, projectType) then Allow else Deny
  }

  // ------------------------------------------------- what a decision comes to

  /** A way up: a card, its parent, that one's parent. */
  ghost predicate Path(cards: Cards, start: int, path: seq<int>) {
    && path != [] && path[0] == start
    && forall i :: 0 <= i < |path| ==> path[i] in cards && (i + 1 < |path| ==> cards[path[i]].parent == Some(path[i + 1]))
  }

  /** p is the first private card up from start, at most sixteen cards away. */
  ghost predicate NearestPrivate(cards: Cards, start: int, p: int) {
    exists path ::
      && Path(cards, start, path) && |path| <= 16 && path[|path| - 1] == p && cards[p].privateTo.Some?
      && forall i :: 0 <= i < |path| - 1 ==> cards[path[i]].privateTo.None?
  }

  /** p is the first card of that type up from start, at most sixteen away. */
  ghost predicate NearestProject(cards: Cards, start: int, projectType: int, p: int) {
    exists path ::
      && Path(cards, start, path) && |path| <= 16 && path[|path| - 1] == p && cards[p].cardType == projectType
      && forall i :: 0 <= i < |path| - 1 ==> cards[path[i]].cardType != projectType
  }

  /** A grant of the leaf's type and process, for everything or for the project
      the card it names is in. */
  ghost predicate GrantCovers(cards: Cards, leaf: Leaf, grants: seq<Grant>, projectType: int, id: Option<int>) {
    exists k :: 0 <= k < |grants| && grants[k].cardType == leaf.cardType && grants[k].process == leaf.process &&
      (grants[k].scope.None? ||
       (id.Some? && grants[k].scope != Some(0) && NearestProject(cards, id.value, projectType, grants[k].scope.value)))
  }

  /** The card the leaf names, if it names one: an insert's parent, or its own. */
  function Named(leaf: Leaf): Option<int> {
    match leaf.aim
    case Insert(parent, _, _) => parent
    case Aim(card) => if card == 0 then None else Some(card)
  }

  ghost predicate SomeoneElses(cards: Cards, leaf: Leaf, person: Option<int>) {
    Named(leaf).Some? && Named(leaf) != Some(0) &&
    exists p :: NearestPrivate(cards, Named(leaf).value, p) && cards[p].privateTo != person
  }

  ghost predicate OnesOwn(cards: Cards, leaf: Leaf, person: Option<int>) {
    Named(leaf).Some? && Named(leaf) != Some(0) &&
    exists p :: NearestPrivate(cards, Named(leaf).value, p) && cards[p].privateTo == person
  }

  /** Who may run the leaf: for an ungated one anybody; for a private insert a
      person; on someone else's private card nobody; on one's own, an owner's
      handler; otherwise whoever a grant covers, where the process takes grants. */
  ghost predicate MayRun(cards: Cards, leaf: Leaf, grants: seq<Grant>, person: Option<int>, projectType: int) {
    if !leaf.gated then true
    else if leaf.aim.Insert? && leaf.aim.makesPrivate then person.Some?
    else if SomeoneElses(cards, leaf, person) then false
    else (OnesOwn(cards, leaf, person) && leaf.owner) || leaf.cardType == 0 || !leaf.seeded ||
         GrantCovers(cards, leaf, grants, projectType, Named(leaf))
  }

  lemma PathSplit(cards: Cards, start: int, path: seq<int>)
    requires |path| > 1
    ensures Path(cards, start, path) <==>
      start in cards && path[0] == start && cards[start].parent == Some(path[1]) && Path(cards, path[1], path[1..])
  {
    var rest := path[1..];
    if Path(cards, start, path) {
      forall i | 0 <= i < |rest| ensures rest[i] in cards && (i + 1 < |rest| ==> cards[rest[i]].parent == Some(rest[i + 1])) {
        assert path[i + 1] in cards;
      }
    }
    if start in cards && path[0] == start && cards[start].parent == Some(path[1]) && Path(cards, path[1], rest) {
      forall i | 0 <= i < |path| ensures path[i] in cards && (i + 1 < |path| ==> cards[path[i]].parent == Some(path[i + 1])) {
        if i > 0 { assert rest[i - 1] == path[i] && rest[i - 1] in cards; }
      }
    }
  }

  ghost predicate FirstHit(cards: Cards, start: int, hit: Card -> bool, path: seq<int>, p: int) {
    && Path(cards, start, path) && path[|path| - 1] == p && hit(cards[p])
    && forall i :: 0 <= i < |path| - 1 ==> !hit(cards[path[i]])
  }

  lemma FirstHitSplit(cards: Cards, start: int, hit: Card -> bool, path: seq<int>, p: int)
    requires |path| > 1
    ensures FirstHit(cards, start, hit, path, p) <==>
      && start in cards && path[0] == start && !hit(cards[start]) && cards[start].parent == Some(path[1])
      && FirstHit(cards, path[1], hit, path[1..], p)
  {
    PathSplit(cards, start, path);
    hide Path;
    var rest := path[1..];
    if start in cards && Path(cards, start, path) {
      assert (forall i :: 0 <= i < |path| - 1 ==> path[i] in cards) by { PathIn(cards, start, path); }
      if forall i :: 0 <= i < |rest| - 1 ==> !hit(cards[rest[i]]) {
        forall i | 0 < i < |path| - 1 ensures !hit(cards[path[i]]) { assert rest[i - 1] == path[i]; }
      }
      if forall i :: 0 <= i < |path| - 1 ==> !hit(cards[path[i]]) {
        forall i | 0 <= i < |rest| - 1 ensures !hit(cards[rest[i]]) { assert rest[i] == path[i + 1]; }
      }
    }
  }

  lemma PathIn(cards: Cards, start: int, path: seq<int>)
    requires Path(cards, start, path)
    ensures forall i :: 0 <= i < |path| ==> path[i] in cards
  {
  }

  /** The walk goes the one way up there is, to the first hit on it. */
  lemma {:induction false} WalkIsPath(cards: Cards, start: int, hit: Card -> bool, fuel: nat, p: int)
    ensures Walk(cards, start, hit, fuel) == Some(p) <==>
      exists path :: FirstHit(cards, start, hit, path, p) && |path| <= fuel
    decreases fuel
  {
    if fuel > 0 && start in cards {
      assert Path(cards, start, [start]);
      if hit(cards[start]) {
        assert FirstHit(cards, start, hit, [start], start);
      } else if cards[start].parent.Some? {
        var up := cards[start].parent.value;
        WalkIsPath(cards, up, hit, fuel - 1, p);
        if path :| FirstHit(cards, up, hit, path, p) && |path| <= fuel - 1 {
          var longer := [start] + path;
          assert longer[1..] == path;
          FirstHitSplit(cards, start, hit, longer, p);
        }
      }
      forall path | FirstHit(cards, start, hit, path, p) && |path| <= fuel
        ensures Walk(cards, start, hit, fuel) == Some(p)
      {
        if |path| > 1 { FirstHitSplit(cards, start, hit, path, p); }
      }
    }
  }

  lemma OwnerIsNearest(cards: Cards, start: int, p: int)
    ensures Walk(cards, start, IsPrivate(), DEPTH) == Some(p) <==> NearestPrivate(cards, start, p)
  {
    WalkIsPath(cards, start, IsPrivate(), DEPTH, p);
    forall path ensures FirstHit(cards, start, IsPrivate(), path, p) && |path| <= DEPTH <==>
        && Path(cards, start, path) && |path| <= 16 && path[|path| - 1] == p && cards[p].privateTo.Some?
        && forall i :: 0 <= i < |path| - 1 ==> cards[path[i]].privateTo.None? {
    }
  }

  lemma TargetIsNearest(cards: Cards, start: int, projectType: int, p: int)
    ensures Walk(cards, start, IsProject(projectType), DEPTH) == Some(p) <==> NearestProject(cards, start, projectType, p)
  {
    WalkIsPath(cards, start, IsProject(projectType), DEPTH, p);
    forall path ensures FirstHit(cards, start, IsProject(projectType), path, p) && |path| <= DEPTH <==>
        && Path(cards, start, path) && |path| <= 16 && path[|path| - 1] == p && cards[p].cardType == projectType
        && forall i :: 0 <= i < |path| - 1 ==> cards[path[i]].cardType != projectType {
    }
  }

  /** The three cases of a card's privacy. */
  lemma OwnerTells(cards: Cards, start: int, person: Option<int>)
    ensures Owner(cards, start).Some? && Owner(cards, start) != person <==>
      exists p :: NearestPrivate(cards, start, p) && cards[p].privateTo != person
    ensures Owner(cards, start).Some? && Owner(cards, start) == person <==>
      exists p :: NearestPrivate(cards, start, p) && cards[p].privateTo == person
  {
    var w := Walk(cards, start, IsPrivate(), DEPTH);
    forall p ensures w == Some(p) <==> NearestPrivate(cards, start, p) { OwnerIsNearest(cards, start, p); }
    hide NearestPrivate, Walk;
    if w.Some? { assert NearestPrivate(cards, start, w.value); }
  }

  lemma GrantTells(cards: Cards, leaf: Leaf, grants: seq<Grant>, projectType: int)
    requires leaf.gated
    ensures Granted(cards, leaf, grants, projectType) <==>
      leaf.cardType == 0 || !leaf.seeded || GrantCovers(cards, leaf, grants, projectType, Named(leaf))
  {
    var project := TargetOf(cards, leaf, projectType);
    if Anchored(leaf) {
      forall p ensures Walk(cards, Anchor(leaf), IsProject(projectType), DEPTH) == Some(p) <==>
          NearestProject(cards, Anchor(leaf), projectType, p) {
        TargetIsNearest(cards, Anchor(leaf), projectType, p);
      }
    }
    hide NearestProject, Walk;
    forall k | 0 <= k < |grants| ensures Matches(grants[k], leaf, project) <==>
        grants[k].cardType == leaf.cardType && grants[k].process == leaf.process &&
        (grants[k].scope.None? || (Named(leaf).Some? && grants[k].scope != Some(0) &&
          NearestProject(cards, Named(leaf).value, projectType, grants[k].scope.value))) {
    }
  }

  /** A leaf is allowed exactly when it may run; someone else's private card is
      refused as such, a private insert without a person as that, and anything
      else for want of a grant. */
  lemma DecisionIs(cards: Cards, leaf: Leaf, grants: seq<Grant>, person: Option<int>, projectType: int)
    ensures var v := Decide(cards, leaf, grants, person, projectType);
      && (v == Allow <==> MayRun(cards, leaf, grants, person, projectType))
      && (v == NoPerson <==> leaf.gated && leaf.aim.Insert? && leaf.aim.makesPrivate && person.None?)
      && (v == Foreign <==> leaf.gated && !(leaf.aim.Insert? && leaf.aim.makesPrivate) && SomeoneElses(cards, leaf, person))
  {
    if leaf.gated { GrantTells(cards, leaf, grants, projectType); }
    OwnerTells(cards, Anchor(leaf), person);
    hide Owner, NearestPrivate, GrantCovers, Granted;
  }

  /** Privacy comes before any grant: whatever the grants, someone else's private
      card is refused; on one's own only an owner's handler needs none. */
  lemma PrivateComesFirst(cards: Cards, leaf: Leaf, grants: seq<Grant>, person: Option<int>, projectType: int, p: int)
    requires leaf.gated && leaf.seeded && leaf.cardType != 0 && !(leaf.aim.Insert? && leaf.aim.makesPrivate)
    requires Named(leaf).Some? && Named(leaf) != Some(0) && NearestPrivate(cards, Named(leaf).value, p)
    ensures cards[p].privateTo != person ==> Decide(cards, leaf, grants, person, projectType) == Foreign
    ensures cards[p].privateTo == person ==>
      (Decide(cards, leaf, grants, person, projectType) == Allow <==>
        leaf.owner || GrantCovers(cards, leaf, grants, projectType, Named(leaf)))
  {
    DecisionIs(cards, leaf, grants, person, projectType);
    forall q | NearestPrivate(cards, Named(leaf).value, q) ensures q == p {
      OwnerIsNearest(cards, Named(leaf).value, p);
      OwnerIsNearest(cards, Named(leaf).value, q);
    }
    hide NearestPrivate, GrantCovers, Decide;
  }

  method AuthorizeLeaf(leaf: Leaf, grants: seq<Grant>, lookup: Cards, projectType: int) returns (ok: bool)
    ensures ok <==> Granted(lookup, leaf, grants, projectType)
    ensures leaf.gated ==>
      (ok <==> leaf.cardType == 0 || !leaf.seeded || GrantCovers(lookup, leaf, grants, projectType, Named(leaf)))
    ensures !leaf.gated ==> ok
  {
    hide GrantCovers;
    if leaf.gated { GrantTells(lookup, leaf, grants, projectType); }
    if !leaf.gated || leaf.cardType == 0 || !leaf.seeded { return true; }
    var project := 0;
    match leaf.aim {
      case Insert(parent, isProject, _) =>
        if parent.Some? { project := ResolveTargetProject(parent.value, projectType, lookup); }
      case Aim(card) =>
        if card != 0 { project := ResolveTargetProject(card, projectType, lookup); }
    }
    for k := 0 to |grants|
      invariant forall j :: 0 <= j < k ==> !Matches(grants[j], leaf, project)
    {
      var g := grants[k];
      if g.cardType != leaf.cardType || g.process != leaf.process { continue; }
      if g.scope.None? { return true; }
      if project != 0 && g.scope.value == project { return true; }
    }
    return false;
  }

  method CheckPrivate(leaf: Leaf, lookup: Cards, person: Option<int>) returns (verdict: Option<Verdict>)
    ensures verdict == PrivateVerdict(lookup, leaf, person)
    ensures verdict == Some(Foreign) <==>
      leaf.gated && !(leaf.aim.Insert? && leaf.aim.makesPrivate) && SomeoneElses(lookup, leaf, person)
    ensures verdict == Some(Allow) <==>
      leaf.gated && (if leaf.aim.Insert? && leaf.aim.makesPrivate then person.Some? else OnesOwn(lookup, leaf, person) && leaf.owner)
    ensures verdict == Some(NoPerson) <==> leaf.gated && leaf.aim.Insert? && leaf.aim.makesPrivate && person.None?
    ensures verdict != Some(Deny)
  {
    OwnerTells(lookup, Anchor(leaf), person);
    hide NearestPrivate, Owner;
    if !leaf.gated { return None; }
    if leaf.aim.Insert? && leaf.aim.makesPrivate {
      if person.None? { return Some(NoPerson); }
      return Some(Allow);
    }
    var target := Anchor(leaf);
    if target == 0 { return None; }
    var owner := PrivateOwner(target, lookup);
    if owner.None? { return None; }
    if person.Some? && person.value == owner.value {
      return if leaf.owner then Some(Allow) else None;
    }
    return Some(Foreign);
  }

  function Seeds(leaves: seq<Leaf>): set<int> {
    set k | 0 <= k < |leaves| && Anchored(leaves[k]) :: Anchor(leaves[k])
  }

  /** The whole pass: the first leaf refused, decided from the loaded cards, is
      the first the card table refuses. */
  method RunAuthzPass(cards: Cards, leaves: seq<Leaf>, grants: seq<Grant>, person: Option<int>, projectType: int)
    returns (offender: nat, verdict: Verdict, unborn: seq<int>)
    ensures offender <= |leaves| && (offender == |leaves| <==> verdict == Allow)
    ensures forall k :: 0 <= k < offender ==> Decide(cards, leaves[k], grants, person, projectType) == Allow
    ensures offender < |leaves| ==> verdict == Decide(cards, leaves[offender], grants, person, projectType)
    ensures forall k :: 0 <= k < offender ==> MayRun(cards, leaves[k], grants, person, projectType)
    ensures offender < |leaves| ==> !MayRun(cards, leaves[offender], grants, person, projectType)
    ensures |unborn| == if offender < |leaves| then offender + 1 else offender
    ensures forall k :: 0 <= k < |unborn| ==> unborn[k] == Unborn(cards, leaves[k])
    ensures forall k :: 0 <= k < |unborn| ==>
      (unborn[k] != 0 <==> leaves[k].gated && Named(leaves[k]).Some? && Named(leaves[k]).value !in {0} + cards.Keys)
    ensures forall k :: 0 <= k < |unborn| && unborn[k] != 0 ==> Named(leaves[k]) == Some(unborn[k])
  {
    hide MayRun;
    var seeds := Seeds(leaves);
    var lookup := Preload(cards, seeds);
    unborn := [];
    for k := 0 to |leaves|
      invariant |unborn| == k
      invariant forall j :: 0 <= j < k ==> MayRun(cards, leaves[j], grants, person, projectType)
      invariant forall j :: 0 <= j < k ==> Decide(cards, leaves[j], grants, person, projectType) == Allow
      invariant forall j :: 0 <= j < k ==> unborn[j] == Unborn(cards, leaves[j])
    {
      DecidesAlike(cards, seeds, leaves[k], grants, person, projectType);
      DecisionIs(cards, leaves[k], grants, person, projectType);
      unborn := unborn + [Unborn(lookup, leaves[k])];
      var private_ := CheckPrivate(leaves[k], lookup, person);
      if private_.Some? {
        if private_.value != Allow { return k, private_.value, unborn; }
      } else {
        var ok := AuthorizeLeaf(leaves[k], grants, lookup, projectType);
        if !ok { return k, Deny, unborn; }
      }
    }
    return |leaves|, Allow, unborn;
  }

  /** unbornAnchor: the card a gated leaf aims at while no card has its id. */
  function Unborn(cards: Cards, leaf: Leaf): int {
    if leaf.gated && Anchor(leaf) !in cards then Anchor(leaf) else 0
  }

  lemma DecidesAlike(cards: Cards, seeds: set<int>, leaf: Leaf, grants: seq<Grant>, person: Option<int>, projectType: int)
    requires Anchored(leaf) ==> Anchor(leaf) in seeds
    ensures var lookup := Restrict(cards, Reached(cards, seeds, DEPTH));
      && Decide(lookup, leaf, grants, person, projectType) == Decide(cards, leaf, grants, person, projectType)
      && Unborn(lookup, leaf) == Unborn(cards, leaf)
  {
    if Anchored(leaf) { LoadedIsEnough(cards, seeds, Anchor(leaf), projectType); }
  }
}
