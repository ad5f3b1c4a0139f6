/** What ReclaimAll achieves when nobody interferes: everything in the pool goes to the heap. */
module PoolReclaim {
  import opened Common
  import opened SizeClasses
  import opened PoolValues
  import opened PoolSteps
  import opened PoolConservation
  import opened PoolDiscipline

  ghost predicate EmptyBelow(gs: seq<Slots>, n: nat) {
    forall m :: 0 <= m < |gs| && m < n ==> gs[m] == []
  }

  /** How far ReclaimAll has come, as its program counter promises it. */
  ghost predicate EmptiedTo(s: State, job: Job) {
    match job
    case Drain(maintaining) => !maintaining
    case Empty(i) => s.reclaim == [] && EmptyBelow(s.groups, i)
    case _ => false
  }

  ghost predicate Emptied(s: State, pc: PC) {
    match pc
    case Disabling(job) => EmptiedTo(s, job)
    case Spinning(job) => EmptiedTo(s, job)
    case Inside(job) => EmptiedTo(s, job)
    case Enabling(e) => e.Release? && EmptiedTo(s, e.next)
    case Outside(e) => e.Release? && EmptiedTo(s, e.next)
    case _ => s.reclaim == [] && EmptyBelow(s.groups, GROUP_COUNT)
  }

  ghost predicate Reclaiming(s: State, a: nat) {
    && Inv(s) && s.panic == NoPanic && a < |s.agents|
    && (s.lock == Open || s.lock == Held(a))
    && Emptied(s, s.agents[a].pc)
  }

  /** Slots in use. */
  function Stock(s: State): nat
    requires |s.groups| == GROUP_COUNT
  {
    |s.reclaim| + |s.groups[0]| + |s.groups[1]| + |s.groups[2]| + |s.groups[3]|
  }

  /** An upper bound on the steps ReclaimAll still needs. */
  function ReclaimCost(s: State, a: nat): int
    requires |s.groups| == GROUP_COUNT && a < |s.agents|
  {
    20 * Stock(s) + Ahead(s.agents[a].pc)
  }

  lemma ReclaimCostIsPositive(s: State, a: nat)
    requires Reclaiming(s, a)
    ensures ReclaimCost(s, a) >= 0 && (s.agents[a].pc != Idle ==> ReclaimCost(s, a) > 0)
  {
    assert AgentOk(s.groups, s.agents[a]);
  }

  lemma DrainMovesOn(s: State, a: nat)
    requires Reclaiming(s, a) && s.agents[a].pc == Inside(Drain(false))
    ensures var s' := Locked(s, a, Drain(false));
            && |s'.agents| == |s.agents| && |s'.groups| == GROUP_COUNT && s'.panic == NoPanic
            && (s'.lock == Open || s'.lock == Held(a))
            && Emptied(s', s'.agents[a].pc) && ReclaimCost(s', a) < ReclaimCost(s, a)
  {
  }

  lemma EmptyMovesOn(s: State, a: nat, i: nat)
    requires Reclaiming(s, a) && s.agents[a].pc == Inside(Empty(i))
    ensures var s' := Locked(s, a, Empty(i));
            && |s'.agents| == |s.agents| && |s'.groups| == GROUP_COUNT && s'.panic == NoPanic
            && (s'.lock == Open || s'.lock == Held(a))
            && Emptied(s', s'.agents[a].pc) && ReclaimCost(s', a) < ReclaimCost(s, a)
  {
    assert AgentOk(s.groups, s.agents[a]);
    assert i == 0 || i == 1 || i == 2 || i == 3 || i == 4;
  }

  lemma ReclaimMovesOn(s: State, a: nat, ok: bool)
    requires Reclaiming(s, a) && s.agents[a].pc != Idle
    ensures var s' := Next(s, a, Proceed(ok));
            Reclaiming(s', a) && ReclaimCost(s', a) < ReclaimCost(s, a)
  {
    NextKeepsInv(s, a, Proceed(ok));
    match s.agents[a].pc
    case Inside(Drain(maintaining)) => DrainMovesOn(s, a);
    case Inside(Empty(i)) => EmptyMovesOn(s, a, i);
    case _ =>
  }

  lemma {:induction false} SoloReclaims(s: State, a: nat, outcomes: seq<bool>)
    requires Reclaiming(s, a) && |outcomes| >= ReclaimCost(s, a)
    ensures var s' := Solo(s, a, outcomes);
            Reclaiming(s', a) && s'.agents[a].pc == Idle
    decreases |outcomes|
  {
    ReclaimCostIsPositive(s, a);
    if s.agents[a].pc != Idle {
      ReclaimMovesOn(s, a, outcomes[0]);
      SoloReclaims(Next(s, a, Proceed(outcomes[0])), a, outcomes[1..]);
    }
  }

  /** ReclaimAll takes nothing from the clients and touches no gate. */
  lemma ReclaimStepTouches(s: State, a: nat, ok: bool)
    requires Reclaiming(s, a) && s.agents[a].pc != Idle
    ensures var s' := Next(s, a, Proceed(ok));
            s'.clients == s.clients && s'.made == s.made && s'.level == s.level && s'.gate == s.gate
  {
  }

  lemma {:induction false} SoloTouches(s: State, a: nat, outcomes: seq<bool>)
    requires Reclaiming(s, a) && Conserved(s)
    ensures var s' := Solo(s, a, outcomes);
            && Conserved(s') && s'.clients == s.clients && s'.made == s.made
            && s'.level == s.level && s'.gate == s.gate
    decreases |outcomes|
  {
    if outcomes != [] && s.agents[a].pc != Idle {
      ReclaimMovesOn(s, a, outcomes[0]);
      ReclaimStepTouches(s, a, outcomes[0]);
      NextConserves(s, a, Proceed(outcomes[0]));
      SoloTouches(Next(s, a, Proceed(outcomes[0])), a, outcomes[1..]);
    }
  }

  /** Left alone, ReclaimAll ends with the pool empty, lock, level and interrupt flag as it found
      them, and every block that was in a group or on the reclaim list back in the heap. */
  lemma ReclaimAllCompletes(s: State, a: nat, outcomes: seq<bool>)
    requires Inv(s) && Conserved(s) && s.panic == NoPanic && s.lock == Open
    requires a < |s.agents| && s.agents[a].pc == Disabling(Drain(false))
    requires |outcomes| >= 20 * Stock(s) + 102
    ensures var s' := Solo(s, a, outcomes);
            && s'.agents == s.agents[a := Agent(Idle, true, [])]
            && s'.reclaim == [] && s'.groups == [[], [], [], []]
            && s'.lock == Open && s'.level == s.level && s'.panic == NoPanic
            && forall b: Block :: InGroups(s.groups, 0, b) + Count(s.reclaim, b) == 1 ==> InSeq(s'.freed, b) == 1
  {
    assert AgentOk(s.groups, s.agents[a]);
    SoloReclaims(s, a, outcomes);
    SoloKeepsFlag(s, a, outcomes);
    SoloOthers(s, a, outcomes);
    SoloTouches(s, a, outcomes);
    var s' := Solo(s, a, outcomes);
    assert s'.agents == s.agents[a := Agent(Idle, true, [])];
    assert s'.groups == [[], [], [], []];
    forall b: Block | InGroups(s.groups, 0, b) + Count(s.reclaim, b) == 1 ensures InSeq(s'.freed, b) == 1 {
      BlockIsFreed(s, s', a, b);
    }
  }

  lemma BlockIsFreed(s: State, s': State, a: nat, b: Block)
    requires Conserved(s) && Conserved(s') && a < |s.agents| && Hand(s.agents[a].pc) == Null
    requires s'.agents == s.agents[a := Agent(Idle, true, [])]
    requires s'.clients == s.clients && s'.made == s.made
    requires s'.groups == [[], [], [], []] && s'.reclaim == []
    requires InGroups(s.groups, 0, b) + Count(s.reclaim, b) == 1
    ensures InSeq(s'.freed, b) == 1
  {
    InHandsUpdate(s.agents, a, Agent(Idle, true, []), b);
    assert Places(s, b) == 1;
    assert Places(s', b) == 1;
    NothingInGroups(s'.groups, 0, b);
  }

  lemma {:induction false} NothingInGroups(gs: seq<Slots>, i: nat, b: Block)
    requires forall m :: 0 <= m < |gs| ==> gs[m] == []
    ensures InGroups(gs, i, b) == 0
    decreases |gs| - i
  {
    if i < |gs| {
      NothingInGroups(gs, i + 1, b);
    }
  }
}
