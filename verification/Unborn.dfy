/**
 Leaves aimed at a card that had no row when they were authorized: the card is
 looked for again just before a group's statement and right after it.  What
 that closes, as a transition system: one batch's transaction among others that
 add, change and delete cards between any two of its steps.
 */
module Unborn {
  import opened Prelude
  import Scope

  /** The ids a group's leaves aim at unchecked (0: none), one a leaf. */
  type Anchors = seq<int>

  /** checkUnborn: the first leaf whose card is there now. */
  method CheckUnborn(group: Anchors, cards: set<int>) returns (offender: Option<nat>)
    ensures offender.None? <==> NoneBorn(group, cards)
    ensures offender.Some? ==>
      && offender.value < |group| && Born(group[offender.value], cards)
      && forall k :: 0 <= k < offender.value ==> !Born(group[k], cards)
  {
    var ids: set<int> := {};
    for i := 0 to |group|
      invariant ids == set k | 0 <= k < i && group[k] != 0 :: group[k]
    {
      if group[i] != 0 { ids := ids + {group[i]}; }
    }
    if ids == {} {
      assert forall k | 0 <= k < |group| && group[k] != 0 :: group[k] in ids;
      return None;
    }
    var born := ids * cards;
    for i := 0 to |group|
      invariant forall k :: 0 <= k < i ==> !Born(group[k], cards)
    {
      if group[i] != 0 && group[i] in born { return Some(i); }
      assert group[i] != 0 ==> group[i] in ids;
    }
    return None;
  }

  predicate Born(anchor: int, cards: set<int>) {
    anchor != 0 && anchor in cards
  }

  predicate NoneBorn(group: Anchors, cards: set<int>) {
    forall k :: 0 <= k < |group| ==> !Born(group[k], cards)
  }

  // ------------------------------------------------------------------- the system

  /** A batch: its leaves, where its groups end (cuts[g] to cuts[g + 1] is group
      g), and what its actor may do. */
  datatype Request = Request(leaves: seq<Scope.Leaf>, cuts: seq<nat>, grants: seq<Scope.Grant>, person: Option<int>,
                             projectType: int) {
    predicate Valid() {
      |cuts| > 0 && cuts[|cuts| - 1] <= |leaves| && forall g, h :: 0 <= g <= h < |cuts| ==> cuts[g] <= cuts[h]
    }

    function Groups(): nat
      requires Valid()
    {
      |cuts| - 1
    }

    predicate InGroup(g: nat, k: nat)
      requires Valid()
    {
      g < Groups() && cuts[g] <= k < cuts[g + 1]
    }
  }

  type Batch = b: Request | b.Valid() witness Request([], [0], [], None, 0)

  /** Which of a group's two checks are made; the server makes both. */
  datatype Checks = Checks(before: bool, after: bool)

  const BOTH := Checks(true, true)

  datatype Phase = Fresh | Between(next: nat) | Running(group: nat) | Committed | RolledBack

  /** `cards` is what is committed, `own` and `gone` what this transaction has
      written and deleted.  Of the past: the cards it was authorized on, the
      leaves whose anchors its statements read, and the ids that came into its
      view since the running group's first check. */
  datatype State = State(
    cards: Scope.Cards,
    own: Scope.Cards,
    gone: set<int>,
    phase: Phase,
    snapshot: Scope.Cards,
    touched: set<nat>,
    arrived: set<int>)

  function Start(cards: Scope.Cards): State {
    State(cards, map[], {}, Fresh, map[], {}, {})
  }

  /** A read of a leaf's anchor counts at the moment its snapshot was taken. */
  datatype Step =
    | OtherWrites(id: int, card: Scope.Card)
    | OtherDeletes(id: int)
    | Writes(id: int, card: Scope.Card)
    | Deletes(id: int)
    | Reads(leaf: nat)
    | Authorize
    | CheckBefore
    | CheckAfter
    | Commit
    | Rollback

  /** What a statement of this transaction sees. */
  function Visible(s: State): set<int> {
    (s.cards.Keys - s.gone) + s.own.Keys
  }

  /** The anchor of every leaf that had no card on these. */
  function Noted(b: Batch, cards: Scope.Cards): (anchors: Anchors)
    ensures |anchors| == |b.leaves|
    ensures forall k :: 0 <= k < |anchors| ==> anchors[k] == Scope.Unborn(cards, b.leaves[k])
  {
    seq(|b.leaves|, k requires 0 <= k < |b.leaves| => Scope.Unborn(cards, b.leaves[k]))
  }

  function OfGroup(b: Batch, anchors: Anchors, g: nat): Anchors
    requires |anchors| == |b.leaves| && g < b.Groups()
  {
    anchors[b.cuts[g]..b.cuts[g + 1]]
  }

  predicate Clear(b: Batch, s: State, g: nat)
    requires g < b.Groups()
  {
    NoneBorn(OfGroup(b, Noted(b, s.snapshot), g), Visible(s))
  }

  predicate Allowed(b: Batch, cards: Scope.Cards) {
    forall k :: 0 <= k < |b.leaves| ==> Scope.Decide(cards, b.leaves[k], b.grants, b.person, b.projectType) == Scope.Allow
  }

  function Undone(s: State): State {
    s.(own := map[], gone := {}, phase := RolledBack)
  }

  /** Cards have changed; while a group runs, what came into view is kept track of. */
  function Changed(s: State, s': State): State {
    if s.phase.Running? then s'.(arrived := s.arrived + (Visible(s') - Visible(s))) else s'
  }

  function Next(b: Batch, c: Checks, s: State, step: Step): State {
    match step
    case OtherWrites(id, card) =>  // waits for this transaction's rows
      if id in s.own || id in s.gone then s else Changed(s, s.(cards := s.cards[id := card]))
    case OtherDeletes(id) =>
      if id in s.own || id in s.gone then s else Changed(s, s.(cards := s.cards - {id}))
    case Writes(id, card) => if s.phase.Running? then Changed(s, s.(own := s.own[id := card])) else s
    case Deletes(id) => if s.phase.Running? then Changed(s, s.(own := s.own - {id}, gone := s.gone + {id})) else s
    case Reads(k) =>
      if s.phase.Running? && b.InGroup(s.phase.group, k) && Born(Scope.Anchor(b.leaves[k]), Visible(s))
      then s.(touched := s.touched + {k}) else s
    case Authorize =>
      if !s.phase.Fresh? then s
      else s.(snapshot := s.cards, phase := if Allowed(b, s.cards) then Between(0) else RolledBack)
    case CheckBefore =>
      if !s.phase.Between? || s.phase.next >= b.Groups() then s
      else if c.before && !Clear(b, s, s.phase.next) then Undone(s)
      else s.(phase := Running(s.phase.next), arrived := {})
    case CheckAfter =>
      if !s.phase.Running? || s.phase.group >= b.Groups() then s
      else if c.after && !Clear(b, s, s.phase.group) then Undone(s)
      else s.(phase := Between(s.phase.group + 1))
    case Commit =>
      if s.phase != Between(b.Groups()) then s
      else s.(cards := (s.cards - s.gone) + s.own, own := map[], gone := {}, phase := Committed)
    case Rollback => if s.phase.Committed? then s else Undone(s)
  }

  function Run(b: Batch, c: Checks, s: State, steps: seq<Step>): State {
    Fold((t, step) => Next(b, c, t, step), s, steps)
  }

  // ------------------------------------------------------------------- the promise

  /** A committed batch read the anchors of gated leaves only where the card was
      there to be authorized on, and allowed. */
  ghost predicate Safe(b: Batch, s: State) {
    s.phase.Committed? ==>
      forall k :: k in s.touched && k < |b.leaves| && b.leaves[k].gated ==>
        && Scope.Named(b.leaves[k]).Some? && Scope.Named(b.leaves[k]).value in s.snapshot
        && Scope.MayRun(s.snapshot, b.leaves[k], b.grants, b.person, b.projectType)
  }

  /** What may happen to the cards in view between a group's two checks: none
      goes, none comes, none comes and goes, or anything. */
  datatype Traffic = NoneGoes | NoneComes | NoneFleeting | Anything

  ghost predicate Keeps(traffic: Traffic, s: State, s': State) {
    s.phase.Running? && s'.phase.Running? ==>
      match traffic
      case NoneGoes => Visible(s) <= Visible(s')
      case NoneComes => Visible(s') <= Visible(s)
      case NoneFleeting => s.arrived * Visible(s) <= Visible(s')
      case Anything => true
  }

  /** Every step of a run is of that traffic. */
  ghost predicate Goes(b: Batch, c: Checks, traffic: Traffic, s: State, steps: seq<Step>) {
    steps == [] ||
    var init := steps[..|steps| - 1];
    Goes(b, c, traffic, s, init) && Keeps(traffic, Run(b, c, s, init), Run(b, c, s, steps))
  }

  ghost predicate SafeIn(c: Checks, traffic: Traffic) {
    forall b: Batch, cards, steps :: Goes(b, c, traffic, Start(cards), steps) ==> Safe(b, Run(b, c, Start(cards), steps))
  }

  // ----------------------------------------------------------------- the invariant

  predicate Wild(b: Batch, snapshot: Scope.Cards, k: nat) {
    k < |b.leaves| && Scope.Unborn(snapshot, b.leaves[k]) != 0
  }

  /** An unchecked anchor read by the running group is still where the check
      after it looks. */
  predicate Caught(traffic: Traffic, s: State, anchor: int) {
    match traffic
    case NoneGoes => anchor in Visible(s)
    case NoneFleeting => anchor in Visible(s) && anchor in s.arrived
    case _ => false
  }

  ghost predicate Inv(b: Batch, c: Checks, traffic: Traffic, s: State) {
    && (s.phase.Fresh? ==> s.touched == {})
    && (!s.phase.Fresh? && !s.phase.RolledBack? ==> Allowed(b, s.snapshot))
    && (forall k :: k in s.touched ==> k < |b.leaves| && Scope.Anchor(b.leaves[k]) != 0)
    && (s.phase.Between? || s.phase.Committed? ==> forall k :: k in s.touched ==> !Wild(b, s.snapshot, k))
    && (s.phase.Running? ==> InvRunning(b, c, traffic, s))
  }

  ghost predicate InvRunning(b: Batch, c: Checks, traffic: Traffic, s: State)
    requires s.phase.Running?
  {
    && (forall k :: k in s.touched && Wild(b, s.snapshot, k) ==>
         b.InGroup(s.phase.group, k) && Caught(traffic, s, Scope.Anchor(b.leaves[k])))
    && (c.before ==> forall k: nat :: b.InGroup(s.phase.group, k) && Wild(b, s.snapshot, k) ==>
         Scope.Anchor(b.leaves[k]) in Visible(s) ==> Scope.Anchor(b.leaves[k]) in s.arrived)
    && (traffic == NoneComes ==> s.arrived == {})
  }

  /** The checks this traffic calls for. */
  predicate Needed(c: Checks, traffic: Traffic) {
    match traffic
    case NoneGoes => c.after
    case NoneComes => c.before
    case NoneFleeting => c.before && c.after
    case Anything => false
  }

  /** The check of a group says of each of its leaves whether its card is there. */
  lemma ClearMeans(b: Batch, s: State, g: nat)
    requires g < b.Groups()
    ensures Clear(b, s, g) <==>
      forall k: nat :: b.InGroup(g, k) && Wild(b, s.snapshot, k) ==> Scope.Anchor(b.leaves[k]) !in Visible(s)
  {
    var all := Noted(b, s.snapshot);
    var group := OfGroup(b, all, g);
    if Clear(b, s, g) {
      forall k: nat | b.InGroup(g, k) && Wild(b, s.snapshot, k) ensures Scope.Anchor(b.leaves[k]) !in Visible(s) {
        assert group[k - b.cuts[g]] == all[k];
      }
    } else {
      var j :| 0 <= j < |group| && Born(group[j], Visible(s));
      assert group[j] == all[b.cuts[g] + j];
      assert b.InGroup(g, b.cuts[g] + j) && Wild(b, s.snapshot, b.cuts[g] + j);
    }
  }

  lemma CardsKeep(b: Batch, c: Checks, traffic: Traffic, s: State, step: Step)
    requires step.OtherWrites? || step.OtherDeletes? || step.Writes? || step.Deletes?
    requires Inv(b, c, traffic, s) && Needed(c, traffic) && Keeps(traffic, s, Next(b, c, s, step))
    ensures Inv(b, c, traffic, Next(b, c, s, step))
  {
    hide Allowed, Scope.Decide, Scope.Unborn, Scope.Anchor;
  }

  lemma ReadKeeps(b: Batch, c: Checks, traffic: Traffic, s: State, k: nat)
    requires Inv(b, c, traffic, s) && Needed(c, traffic)
    ensures Inv(b, c, traffic, Next(b, c, s, Reads(k)))
  {
    hide Allowed, Scope.Decide;
  }

  lemma ChecksKeep(b: Batch, c: Checks, traffic: Traffic, s: State, step: Step)
    requires step.Authorize? || step.CheckBefore? || step.CheckAfter?
    requires Inv(b, c, traffic, s) && Needed(c, traffic)
    ensures Inv(b, c, traffic, Next(b, c, s, step))
  {
    hide Clear, Allowed, Scope.Decide, Scope.Unborn, Scope.Anchor;
    if s.phase.Between? && s.phase.next < b.Groups() { ClearMeans(b, s, s.phase.next); }
    if s.phase.Running? && s.phase.group < b.Groups() { ClearMeans(b, s, s.phase.group); }
  }

  lemma StepKeeps(b: Batch, c: Checks, traffic: Traffic, s: State, step: Step)
    requires Inv(b, c, traffic, s) && Needed(c, traffic) && Keeps(traffic, s, Next(b, c, s, step))
    ensures Inv(b, c, traffic, Next(b, c, s, step))
  {
    match step
    case Reads(k) => ReadKeeps(b, c, traffic, s, k);
    case Authorize => ChecksKeep(b, c, traffic, s, step);
    case CheckBefore => ChecksKeep(b, c, traffic, s, step);
    case CheckAfter => ChecksKeep(b, c, traffic, s, step);
    case Commit => hide Allowed, Scope.Decide, Scope.Unborn;
    case Rollback => hide Allowed, Scope.Decide, Scope.Unborn;
    case _ => CardsKeep(b, c, traffic, s, step);
  }

  lemma {:induction false} RunKeepsInv(b: Batch, c: Checks, traffic: Traffic, cards: Scope.Cards, steps: seq<Step>)
    requires Needed(c, traffic) && Goes(b, c, traffic, Start(cards), steps)
    ensures Inv(b, c, traffic, Run(b, c, Start(cards), steps))
  {
    if steps != [] {
      hide Inv, Keeps, Next;
      var init := steps[..|steps| - 1];
      RunKeepsInv(b, c, traffic, cards, init);
      StepKeeps(b, c, traffic, Run(b, c, Start(cards), init), steps[|steps| - 1]);
    }
  }

  /** Whatever others do: as long as no card comes and goes between two checks of
      a group (in particular while none is deleted there), a committed batch read
      no gated anchor that it was not authorized on. */
  lemma CommittedIsAuthorized(b: Batch, c: Checks, traffic: Traffic, cards: Scope.Cards, steps: seq<Step>)
    requires Needed(c, traffic) && Goes(b, c, traffic, Start(cards), steps)
    ensures Safe(b, Run(b, c, Start(cards), steps))
  {
    RunKeepsInv(b, c, traffic, cards, steps);
    var s := Run(b, c, Start(cards), steps);
    hide Scope.Decide, Scope.MayRun, Run;
    forall k | k in s.touched && k < |b.leaves| && s.phase.Committed?
      ensures Scope.MayRun(s.snapshot, b.leaves[k], b.grants, b.person, b.projectType)
    {
      Scope.DecisionIs(s.snapshot, b.leaves[k], b.grants, b.person, b.projectType);
    }
  }

  // ------------------------------------------------------------- when each is needed

  /** One leaf, aimed at a card that is not there. */
  function Probe(): Batch {
    Request([Scope.Leaf(true, 0, "", true, false, Scope.Aim.Aim(7))], [0, 1], [], None, 0)
  }

  function At(cards: Scope.Cards, phase: Phase, touched: set<nat>, arrived: set<int>): State {
    State(cards, map[], {}, phase, map[], touched, arrived)
  }

  function Seven(): Scope.Cards {
    map[7 := Scope.Card(None, 0, None)]
  }

  /** One more step of a run, from a state we know to one we know. */
  lemma Take(c: Checks, traffic: Traffic, steps: seq<Step>, s: State, step: Step, s': State) returns (more: seq<Step>)
    requires Goes(Probe(), c, traffic, Start(map[]), steps) && Run(Probe(), c, Start(map[]), steps) == s
    requires Next(Probe(), c, s, step) == s' && Keeps(traffic, s, s')
    ensures Goes(Probe(), c, traffic, Start(map[]), more) && Run(Probe(), c, Start(map[]), more) == s'
  {
    hide Next, Keeps, Probe;
    more := steps + [step];
    assert more[..|more| - 1] == steps;
  }

  lemma ProbeIsAllowed()
    ensures Allowed(Probe(), map[]) && Noted(Probe(), map[]) == [7] && OfGroup(Probe(), [7], 0) == [7]
  {
  }

  /** Authorized; then, perhaps, the card is added; then the group starts. */
  lemma ReachRunning(c: Checks, traffic: Traffic, added: bool) returns (steps: seq<Step>)
    requires added ==> !c.before
    ensures Goes(Probe(), c, traffic, Start(map[]), steps)
    ensures Run(Probe(), c, Start(map[]), steps) == At(if added then Seven() else map[], Running(0), {}, {})
  {
    hide Allowed, Goes, Run, Keeps;
    ProbeIsAllowed();
    steps := [];
    assert Goes(Probe(), c, traffic, Start(map[]), []) && Run(Probe(), c, Start(map[]), []) == Start(map[]) by { EmptyRun(c, traffic); }
    steps := TakeAnd(c, traffic, steps, Start(map[]), Authorize, At(map[], Between(0), {}, {}));
    if added {
      steps := TakeAnd(c, traffic, steps, At(map[], Between(0), {}, {}), OtherWrites(7, Seven()[7]), At(Seven(), Between(0), {}, {}));
      steps := TakeAnd(c, traffic, steps, At(Seven(), Between(0), {}, {}), CheckBefore, At(Seven(), Running(0), {}, {}));
    } else {
      steps := TakeAnd(c, traffic, steps, At(map[], Between(0), {}, {}), CheckBefore, At(map[], Running(0), {}, {}));
    }
  }

  lemma EmptyRun(c: Checks, traffic: Traffic)
    ensures Goes(Probe(), c, traffic, Start(map[]), []) && Run(Probe(), c, Start(map[]), []) == Start(map[])
  {
  }

  /** A step outside a group, where any traffic is. */
  lemma TakeAnd(c: Checks, traffic: Traffic, steps: seq<Step>, s: State, step: Step, s': State) returns (more: seq<Step>)
    requires Goes(Probe(), c, traffic, Start(map[]), steps) && Run(Probe(), c, Start(map[]), steps) == s
    requires Next(Probe(), c, s, step) == s' && !(s.phase.Running? && s'.phase.Running?)
    ensures Goes(Probe(), c, traffic, Start(map[]), more) && Run(Probe(), c, Start(map[]), more) == s'
  {
    hide Goes, Run, Next;
    more := Take(c, traffic, steps, s, step, s');
  }

  /** The anchor has been read; then, perhaps, the card goes; then the commit. */
  lemma ReachCommitted(c: Checks, traffic: Traffic, before: seq<Step>, arrived: set<int>, goes: bool)
    requires Goes(Probe(), c, traffic, Start(map[]), before)
    requires Run(Probe(), c, Start(map[]), before) == At(Seven(), Running(0), {}, arrived)
    requires if goes then traffic != NoneGoes && (traffic == NoneFleeting ==> arrived == {}) else !c.after
    ensures !SafeIn(c, traffic)
  {
    hide Allowed, Goes, Run;
    ProbeIsAllowed();
    var end := if goes then map[] else Seven();
    var steps := Take(c, traffic, before, At(Seven(), Running(0), {}, arrived), Reads(0), At(Seven(), Running(0), {0}, arrived));
    if goes {
      steps := Take(c, traffic, steps, At(Seven(), Running(0), {0}, arrived), OtherDeletes(7), At(map[], Running(0), {0}, arrived));
    }
    steps := TakeAnd(c, traffic, steps, At(end, Running(0), {0}, arrived), CheckAfter, At(end, Between(1), {0}, arrived));
    steps := TakeAnd(c, traffic, steps, At(end, Between(1), {0}, arrived), Commit, At(end, Committed, {0}, arrived));
    Unsafe(c, traffic, steps, At(end, Committed, {0}, arrived));
  }

  lemma Unsafe(c: Checks, traffic: Traffic, steps: seq<Step>, s: State)
    requires Goes(Probe(), c, traffic, Start(map[]), steps) && Run(Probe(), c, Start(map[]), steps) == s
    requires s.phase.Committed? && 0 in s.touched && s.snapshot == map[]
    ensures !SafeIn(c, traffic)
  {
    hide Goes, Run;
    assert !Safe(Probe(), s);
  }

  lemma Uncovered(c: Checks, traffic: Traffic)
    requires !Needed(c, traffic)
    ensures !SafeIn(c, traffic)
  {
    hide Goes, Run, SafeIn;
    if traffic.Anything? || (traffic != NoneComes && !c.after) {
      var steps := ReachRunning(c, traffic, false);
      steps := Take(c, traffic, steps, At(map[], Running(0), {}, {}), OtherWrites(7, Seven()[7]), At(Seven(), Running(0), {}, {7}));
      ReachCommitted(c, traffic, steps, {7}, traffic.Anything?);
    } else {
      var steps := ReachRunning(c, traffic, true);
      ReachCommitted(c, traffic, steps, {}, true);
    }
  }

  /** Over all batches and runs the check after is enough exactly while no card in
      view goes, the one before exactly while none comes, both exactly while none
      comes and goes between them; and a card that does is seen by neither. */
  lemma ChecksNeeded(c: Checks, traffic: Traffic)
    ensures SafeIn(c, traffic) <==> Needed(c, traffic)
  {
    if Needed(c, traffic) {
      forall b: Batch, cards, steps | Goes(b, c, traffic, Start(cards), steps)
        ensures Safe(b, Run(b, c, Start(cards), steps))
      {
        CommittedIsAuthorized(b, c, traffic, cards, steps);
      }
    } else {
      Uncovered(c, traffic);
    }
  }
}
