/**
 The dispatcher's side of it: authorization, then group after group between its
 two checks, then the commit, with anything others or the statements themselves
 do in between.  A whole batch is a run of the Unborn machine.
 */
module UnbornServer {
  import opened Prelude
  import opened Unborn
  import Scope

  /** How a batch goes: what happens at each moment (before authorization; before
      and during each group; before the commit), and whether a group's statement
      or the commit fails. */
  datatype Plan = Plan(meanwhile: nat -> seq<Step>, fails: nat -> bool)

  predicate Statement(step: Step) {
    step.OtherWrites? || step.OtherDeletes? || step.Writes? || step.Deletes? || step.Reads?
  }

  predicate Statements(steps: seq<Step>) {
    forall k :: 0 <= k < |steps| ==> Statement(steps[k])
  }

  ghost predicate ValidPlan(p: Plan) {
    forall m :: Statements(p.meanwhile(m))
  }

  /** Statements move no batch on. */
  lemma PhaseStays(b: Batch, s: State, step: Step)
    requires Statement(step)
    ensures var s' := Next(b, BOTH, s, step); s'.phase == s.phase && s'.snapshot == s.snapshot
  {
    hide Clear, Allowed;
  }

  lemma NoSteps(b: Batch, s: State)
    ensures Run(b, BOTH, s, []) == s
  {
  }

  lemma OneMore(b: Batch, s: State, steps: seq<Step>, i: nat)
    requires i < |steps|
    ensures Run(b, BOTH, s, steps[..i + 1]) == Next(b, BOTH, Run(b, BOTH, s, steps[..i]), steps[i])
  {
    hide Next;
    assert steps[..i + 1][..i] == steps[..i];
  }

  /** One more stretch of a run. */
  ghost method Took(b: Batch, s: State, trace: seq<Step>, more: seq<Step>, now: State) returns (all: seq<Step>)
    requires now == Run(b, BOTH, Run(b, BOTH, s, trace), more)
    ensures now == Run(b, BOTH, s, all)
  {
    hide Next;
    FoldAppend((t, step) => Next(b, BOTH, t, step), s, trace, more);
    all := trace + more;
  }

  ghost method TookStep(b: Batch, s: State, trace: seq<Step>, step: Step, now: State) returns (all: seq<Step>)
    requires now == Next(b, BOTH, Run(b, BOTH, s, trace), step)
    ensures now == Run(b, BOTH, s, all)
  {
    hide Next;
    FoldSnoc((t, st) => Next(b, BOTH, t, st), s, trace, step);
    all := trace + [step];
  }

  class Server {
    const batch: Batch
    var cards: Scope.Cards
    var own: Scope.Cards
    var gone: set<int>
    var phase: Phase
    var unborn: Anchors
    var snapshot: Scope.Cards
    var touched: set<nat>
    var arrived: set<int>

    function State(): State
      reads this
    {
      Unborn.State(cards, own, gone, phase, snapshot, touched, arrived)
    }

    constructor (batch: Batch, cards: Scope.Cards)
      ensures this.batch == batch && State() == Start(cards)
    {
      this.batch, this.cards, own, gone, unborn := batch, cards, map[], {}, [];
      phase, snapshot, touched, arrived := Fresh, map[], {}, {};
    }

    method Install(s: State)
      modifies this
      ensures State() == s && unborn == old(unborn)
    {
      cards, own, gone, phase := s.cards, s.own, s.gone, s.phase;
      snapshot, touched, arrived := s.snapshot, s.touched, s.arrived;
    }

    /** Other transactions, and this one's statement, take these steps. */
    method Meanwhile(steps: seq<Step>)
      requires Statements(steps)
      modifies this
      ensures State() == Run(batch, BOTH, old(State()), steps)
      ensures phase == old(phase) && snapshot == old(snapshot) && unborn == old(unborn)
    {
      hide Next, Run;
      ghost var s := State();
      NoSteps(batch, s);
      for i := 0 to |steps|
        invariant State() == Run(batch, BOTH, s, steps[..i])
        invariant phase == old(phase) && snapshot == old(snapshot) && unborn == old(unborn)
      {
        OneMore(batch, s, steps, i);
        PhaseStays(batch, State(), steps[i]);
        Install(Next(batch, BOTH, State(), steps[i]));
      }
      assert steps[..|steps|] == steps;
    }

    /** runAuthzPass, before the transaction: the first refusal ends the batch,
        and what every leaf aims at unchecked is noted. */
    method Authorize()
      requires phase.Fresh?
      modifies this
      ensures State() == Next(batch, BOTH, old(State()), Step.Authorize)
      ensures phase == Between(0) || phase == RolledBack
      ensures phase == Between(0) ==> unborn == Noted(batch, snapshot) && snapshot == old(cards)
      ensures phase == Between(0) <==>
        forall k :: 0 <= k < |batch.leaves| ==>
          Scope.MayRun(old(cards), batch.leaves[k], batch.grants, batch.person, batch.projectType)
    {
      hide Scope.Decide, Scope.Unborn;
      snapshot := cards;
      var offender, verdict, anchors := Scope.RunAuthzPass(cards, batch.leaves, batch.grants, batch.person, batch.projectType);
      unborn := anchors;
      phase := if offender == |batch.leaves| then Between(0) else RolledBack;
      assert phase == Between(0) ==> unborn == Noted(batch, snapshot);
    }

    /** A statement of this transaction would find that card. */
    predicate InView(card: int)
      reads this
    {
      card != 0 && ((card in cards && card !in gone) || card in own)
    }

    /** One of a group's two checks: true when some anchor's card is there now. */
    method Check(g: nat) returns (born: bool)
      requires g < batch.Groups() && unborn == Noted(batch, snapshot)
      ensures born <==> !Clear(batch, State(), g)
      ensures born <==> exists k :: batch.cuts[g] <= k < batch.cuts[g + 1] && InView(unborn[k])
    {
      var offender := CheckUnborn(unborn[batch.cuts[g]..batch.cuts[g + 1]], Visible(State()));
      born := offender.Some?;
    }

    method Undo()
      requires !phase.Committed?
      modifies `own, `gone, `phase
      ensures State() == Undone(old(State())) && own == map[] && gone == {} && phase == RolledBack
    {
      own, gone, phase := map[], {}, RolledBack;
    }

    method Open(g: nat) returns (err: bool)
      requires phase == Between(g) && g < batch.Groups() && unborn == Noted(batch, snapshot)
      modifies this
      ensures State() == Next(batch, BOTH, old(State()), CheckBefore)
      ensures unborn == old(unborn) && snapshot == old(snapshot) && phase == if err then RolledBack else Running(g)
      ensures err <==> old(exists k :: batch.cuts[g] <= k < batch.cuts[g + 1] && InView(unborn[k]))
      ensures cards == old(cards)
    {
      hide Clear, Noted, Allowed;
      err := Check(g);
      if err { Undo(); } else { phase, arrived := Running(g), {}; }
    }

    method Close(g: nat) returns (err: bool)
      requires phase == Running(g) && g < batch.Groups() && unborn == Noted(batch, snapshot)
      modifies this
      ensures State() == Next(batch, BOTH, old(State()), CheckAfter)
      ensures unborn == old(unborn) && snapshot == old(snapshot) && phase == if err then RolledBack else Between(g + 1)
      ensures err <==> old(exists k :: batch.cuts[g] <= k < batch.cuts[g + 1] && InView(unborn[k]))
      ensures cards == old(cards)
    {
      hide Clear, Noted, Allowed;
      err := Check(g);
      if err { Undo(); } else { phase := Between(g + 1); }
    }

    method GiveUp()
      requires !phase.Committed?
      modifies `own, `gone, `phase
      ensures State() == Next(batch, BOTH, old(State()), Rollback) && phase == RolledBack
      ensures cards == old(cards)
    {
      hide Clear, Allowed;
      Undo();
    }

    /** One group: checked, run, checked again; any failure rolls the batch back. */
    method RunGroup(g: nat, during: seq<Step>, fails: bool) returns (err: bool, ghost trace: seq<Step>)
      requires phase == Between(g) && g < batch.Groups() && unborn == Noted(batch, snapshot) && Statements(during)
      modifies this
      ensures State() == Run(batch, BOTH, old(State()), trace)
      ensures unborn == old(unborn) && snapshot == old(snapshot) && phase == if err then RolledBack else Between(g + 1)
    {
      hide Run, Next, Noted;
      ghost var s := State();
      NoSteps(batch, s);
      err := Open(g);
      trace := TookStep(batch, s, [], CheckBefore, State());
      if err { return; }
      Meanwhile(during);
      trace := Took(batch, s, trace, during, State());
      if fails {
        GiveUp();
        trace := TookStep(batch, s, trace, Rollback, State());
        return true, trace;
      }
      err := Close(g);
      trace := TookStep(batch, s, trace, CheckAfter, State());
    }

    method EndBatch(fails: bool) returns (ghost trace: seq<Step>)
      requires phase == Between(batch.Groups())
      modifies this
      ensures State() == Run(batch, BOTH, old(State()), trace)
      ensures phase == if fails then RolledBack else Committed
      ensures cards == if fails then old(cards) else (old(cards) - old(gone)) + old(own)
    {
      ghost var s := State();
      NoSteps(batch, s);
      hide Run, Clear, Noted, Allowed;
      if fails {
        GiveUp();
        trace := TookStep(batch, s, [], Rollback, State());
      } else {
        cards, own, gone, phase := (cards - gone) + own, map[], {}, Committed;
        trace := TookStep(batch, s, [], Commit, State());
      }
    }

    /** Groups in turn, whatever happens before and during each. */
    method RunGroups(plan: Plan) returns (err: bool, ghost trace: seq<Step>)
      requires phase == Between(0) && unborn == Noted(batch, snapshot) && ValidPlan(plan)
      modifies this
      ensures State() == Run(batch, BOTH, old(State()), trace)
      ensures phase == if err then RolledBack else Between(batch.Groups())
    {
      hide Run, Next, Noted;
      ghost var s, more := State(), [];
      NoSteps(batch, s);
      err, trace := false, [];
      for g := 0 to batch.Groups()
        invariant phase == Between(g) && unborn == Noted(batch, snapshot) && !err
        invariant State() == Run(batch, BOTH, s, trace)
      {
        Meanwhile(plan.meanwhile(1 + 2 * g));
        trace := Took(batch, s, trace, plan.meanwhile(1 + 2 * g), State());
        err, more := RunGroup(g, plan.meanwhile(2 + 2 * g), plan.fails(g));
        trace := Took(batch, s, trace, more, State());
        if err { return; }
      }
    }

    /** A whole batch, whatever happens meanwhile, is a run of the machine; if it
        commits and no card came and went between two checks of a group, it read
        no gated anchor it was not authorized on. */
    method RunBatch(plan: Plan) returns (committed: bool, ghost trace: seq<Step>)
      requires State() == Start(cards) && ValidPlan(plan)
      modifies this
      ensures State() == Run(batch, BOTH, old(State()), trace)
      ensures phase == if committed then Committed else RolledBack
      ensures Goes(batch, BOTH, NoneFleeting, old(State()), trace) ==> Safe(batch, State())
    {
      hide Run, Next, Noted, Goes, Safe;
      ghost var s, more := State(), [];
      NoSteps(batch, s);
      Meanwhile(plan.meanwhile(0));
      trace := Took(batch, s, [], plan.meanwhile(0), State());
      Authorize();
      trace := TookStep(batch, s, trace, Step.Authorize, State());
      committed := phase != RolledBack;
      if committed {
        var err;
        err, more := RunGroups(plan);
        trace := Took(batch, s, trace, more, State());
        committed := !err;
      }
      if committed {
        Meanwhile(plan.meanwhile(1 + 2 * batch.Groups()));
        trace := Took(batch, s, trace, plan.meanwhile(1 + 2 * batch.Groups()), State());
        more := EndBatch(plan.fails(batch.Groups()));
        trace := Took(batch, s, trace, more, State());
        committed := phase.Committed?;
      }
      if Goes(batch, BOTH, NoneFleeting, s, trace) {
        CommittedIsAuthorized(batch, BOTH, NoneFleeting, s.cards, trace);
      }
    }
  }
}
