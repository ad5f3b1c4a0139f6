/** How long a Maintain can take while the other agents go on: each of its own steps that changes
    anything brings it nearer to its end, and only what the others take out of the groups or add to
    the reclaim list puts it back. */
module PoolProgress {
  import opened Common
  import opened SizeClasses
  import opened PoolValues
  import opened PoolSteps
  import opened PoolDiscipline

  /** Somewhere between the call of Maintain and its return. */
  predicate Maintaining(pc: PC) {
    match pc
    case Idle => false
    case Disabling(job) => MaintainJob(job)
    case Spinning(job) => MaintainJob(job)
    case Inside(job) => MaintainJob(job)
    case Enabling(e) => e.Fetch? || e.next == Drain(true)
    case Outside(e) => e.Fetch? || e.next == Drain(true)
    case Restoring => true
  }

  predicate MaintainJob(job: Job) {
    job.Gate? || job == Drain(true) || job.Fill? || job.Put?
  }

  // -- Its own steps --

  lemma BoundsOnCost(s: State, a: nat)
    requires Inv(s) && a < |s.agents|
    ensures Backlog(s) >= 0 && Ahead(s.agents[a].pc) >= 0
  {
    assert AgentOk(s.groups, s.agents[a]);
    assert |s.groups[0]| <= 16 && |s.groups[1]| <= 16 && |s.groups[2]| <= 16 && |s.groups[3]| <= 16;
  }

  /** Slots still to be emptied or filled, after a step that stores one or empties one. */
  lemma BacklogAfter(s: State, s': State, i: nat)
    requires |s.groups| == GROUP_COUNT == |s'.groups| && i < GROUP_COUNT
    requires forall m :: 0 <= m < GROUP_COUNT && m != i ==> s'.groups[m] == s.groups[m]
    ensures Backlog(s') - Backlog(s) == |s'.reclaim| - |s.reclaim| + |s.groups[i]| - |s'.groups[i]|
  {
  }

  lemma OwnDrain(s: State, a: nat)
    requires Inv(s) && a < |s.agents| && s.agents[a].pc == Inside(Drain(true))
    ensures var s' := Locked(s, a, Drain(true));
            s'.panic == s.panic && Maintaining(s'.agents[a].pc) && Cost(s', a) < Cost(s, a)
  {
  }

  lemma OwnFill(s: State, a: nat, i: nat)
    requires Inv(s) && a < |s.agents| && s.agents[a].pc == Inside(Fill(i))
    ensures var s' := Locked(s, a, Fill(i));
            s'.panic == s.panic && Maintaining(s'.agents[a].pc) && Cost(s', a) < Cost(s, a)
  {
    assert AgentOk(s.groups, s.agents[a]);
  }

  lemma OwnPut(s: State, a: nat, i: nat, p: Ptr)
    requires Inv(s) && a < |s.agents| && s.agents[a].pc == Inside(Put(i, p))
    ensures var s' := Locked(s, a, Put(i, p));
            s'.panic == s.panic && Maintaining(s'.agents[a].pc) && Cost(s', a) < Cost(s, a)
  {
    assert AgentOk(s.groups, s.agents[a]);
    BacklogAfter(s, Locked(s, a, Put(i, p)), i);
  }

  lemma OwnGate(s: State, a: nat)
    requires Inv(s) && a < |s.agents| && s.agents[a].pc == Inside(Gate)
    ensures var s' := Locked(s, a, Gate);
            s'.panic == s.panic && Maintaining(s'.agents[a].pc) && Cost(s', a) < Cost(s, a)
  {
  }

  /** Outside the lock: the flag, the lock itself, calloc and free. */
  lemma OwnElsewhere(s: State, a: nat, c: Choice)
    requires Inv(s) && a < |s.agents| && Maintaining(s.agents[a].pc) && !s.agents[a].pc.Inside? && !HeldUp(s, a)
    ensures var s' := Next(s, a, c);
            && |s'.agents| == |s.agents| && |s'.groups| == GROUP_COUNT
            && Cost(s', a) < Cost(s, a) && (Maintaining(s'.agents[a].pc) || s'.agents[a].pc == Idle)
  {
  }

  /** It waits for the lock, or everything has stopped. */
  predicate HeldUp(s: State, a: nat) {
    s.panic != NoPanic || (a < |s.agents| && s.agents[a].pc.Spinning? && s.lock.Held?)
  }

  /** An own step that does not wait costs. */
  lemma OwnStep(s: State, a: nat, c: Choice)
    requires Inv(s) && a < |s.agents| && Maintaining(s.agents[a].pc)
    ensures var s' := Next(s, a, c);
            && |s'.agents| == |s.agents| && |s'.groups| == GROUP_COUNT
            && (HeldUp(s, a) ==> s' == s)
            && (!HeldUp(s, a) ==>
                  Cost(s', a) < Cost(s, a) && (Maintaining(s'.agents[a].pc) || s'.agents[a].pc == Idle))
  {
    if !HeldUp(s, a) {
      NextKeepsInv(s, a, c);
      SameAgents(s, a, c);
      match s.agents[a].pc
      case Inside(Gate) => OwnGate(s, a);
      case Inside(Drain(maintaining)) => OwnDrain(s, a);
      case Inside(Fill(i)) => OwnFill(s, a, i);
      case Inside(Put(i, p)) => OwnPut(s, a, i, p);
      case _ => OwnElsewhere(s, a, c);
    }
  }

  // -- The steps of the others --

  /** What a step adds to the backlog: slots taken out of groups, entries added to the reclaim list. */
  function Setback(s: State, b: nat, c: Choice): nat
    requires |s.groups| == GROUP_COUNT == |Next(s, b, c).groups|
  {
    var more := Backlog(Next(s, b, c)) - Backlog(s);
    if more > 0 then more else 0
  }

  lemma OthersStep(s: State, a: nat, b: nat, c: Choice)
    requires Inv(s) && a < |s.agents| && b != a
    ensures var s' := Next(s, b, c);
            && |s'.agents| == |s.agents| && |s'.groups| == GROUP_COUNT
            && s'.agents[a] == s.agents[a]
            && Cost(s', a) <= Cost(s, a) + 20 * Setback(s, b, c)
  {
    NextKeepsInv(s, b, c);
    SameAgents(s, b, c);
  }

  /** By how many slots a step can set Maintain back: a request served from the pool by one of each
      group, a pointer given to Free and a block that ReclaimAll takes out of a group by one,
      nothing else by any. */
  function Weight(s: State, b: nat): nat {
    if b >= |s.agents| || !s.agents[b].pc.Inside? then 0 else JobWeight(s.agents[b].pc.job)
  }

  function JobWeight(job: Job): nat {
    if job.ServeAlloc? then 4 else if job.ServeFree? || job.Empty? then 1 else 0
  }

  lemma SetbackIsWeighed(s: State, b: nat, c: Choice)
    requires Inv(s)
    ensures |Next(s, b, c).groups| == GROUP_COUNT && Setback(s, b, c) <= Weight(s, b)
  {
    if s.panic == NoPanic && b < |s.agents| && s.agents[b].pc.Inside? {
      SetbackInside(s, b, s.agents[b].pc.job);
    } else {
      QuietStep(s, b, c);
    }
  }

  lemma QuietStep(s: State, b: nat, c: Choice)
    requires s.panic != NoPanic || b >= |s.agents| || !s.agents[b].pc.Inside?
    ensures Next(s, b, c).groups == s.groups && Next(s, b, c).reclaim == s.reclaim
  {
  }

  lemma SetbackInside(s: State, b: nat, job: Job)
    requires Inv(s) && b < |s.agents| && s.agents[b].pc == Inside(job)
    ensures |Locked(s, b, job).groups| == GROUP_COUNT
    ensures Backlog(Locked(s, b, job)) <= Backlog(s) + JobWeight(job)
  {
    match job
    case ServeAlloc(size) => SetbackOfAlloc(s, b, size);
    case Empty(i) => SetbackOfEmpty(s, b, i);
    case Put(i, p) =>
      assert AgentOk(s.groups, s.agents[b]);
      BacklogAfter(s, Locked(s, b, job), i);
    case _ =>
  }

  lemma SetbackOfAlloc(s: State, b: nat, size: nat)
    requires Inv(s) && b < |s.agents| && s.agents[b].pc == Inside(ServeAlloc(size))
    ensures var s' := Locked(s, b, ServeAlloc(size));
            |s'.groups| == GROUP_COUNT && Backlog(s') <= Backlog(s) + 4
  {
    if ClassOf(size) <= |s.groups| {
      AllocFromEffect(s.groups, ClassOf(size));
    }
    var gs := AllocFrom(s.groups, ClassOf(size)).0;
    assert forall m :: 0 <= m < GROUP_COUNT ==> |gs[m]| >= |s.groups[m]| - 1;
  }

  lemma SetbackOfEmpty(s: State, b: nat, i: nat)
    requires Inv(s) && b < |s.agents| && s.agents[b].pc == Inside(Empty(i))
    ensures var s' := Locked(s, b, Empty(i));
            |s'.groups| == GROUP_COUNT && Backlog(s') <= Backlog(s) + 1
  {
    if i < |s.groups| {
      BacklogAfter(s, Locked(s, b, Empty(i)), i);
    }
  }

  // -- Whole runs --

  /** Steps of agent a at which it does not wait, until its Maintain has returned. */
  function OwnSteps(s: State, a: nat, trace: seq<(nat, Choice)>): nat
    decreases |trace|
  {
    if trace == [] || a >= |s.agents| || !Maintaining(s.agents[a].pc) then 0
    else
      (if trace[0].0 == a && !HeldUp(s, a) then 1 else 0)
        + OwnSteps(Next(s, trace[0].0, trace[0].1), a, trace[1..])
  }

  /** Slots that the others take out of the groups or add to the reclaim list meanwhile. */
  ghost function Setbacks(s: State, a: nat, trace: seq<(nat, Choice)>): nat
    requires Inv(s)
    decreases |trace|
  {
    if trace == [] || a >= |s.agents| || !Maintaining(s.agents[a].pc) then 0
    else
      var (b, c) := trace[0];
      NextKeepsInv(s, b, c);
      (if b == a then 0 else Setback(s, b, c)) + Setbacks(Next(s, b, c), a, trace[1..])
  }

  /** In every interleaving: until it returns, Maintain makes at most as many steps as its cost at
      the beginning and 20 for every slot by which the others set it back. */
  lemma {:induction false} MaintainIsBounded(s: State, a: nat, trace: seq<(nat, Choice)>)
    requires Inv(s) && a < |s.agents|
    ensures OwnSteps(s, a, trace) <= Cost(s, a) + 20 * Setbacks(s, a, trace)
    decreases |trace|
  {
    BoundsOnCost(s, a);
    if trace != [] && Maintaining(s.agents[a].pc) {
      var (b, c) := trace[0];
      NextKeepsInv(s, b, c);
      if b == a {
        OwnStep(s, a, c);
      } else {
        OthersStep(s, a, b, c);
      }
      MaintainIsBounded(Next(s, b, c), a, trace[1..]);
    }
  }

  /** Steps of the others that serve a request, take a pointer given to Free, or take a block out of
      a group for ReclaimAll. */
  ghost function Disturbances(s: State, a: nat, trace: seq<(nat, Choice)>): nat
    decreases |trace|
  {
    if trace == [] || a >= |s.agents| || !Maintaining(s.agents[a].pc) then 0
    else
      var (b, c) := trace[0];
      (if b != a && Weight(s, b) > 0 then 1 else 0) + Disturbances(Next(s, b, c), a, trace[1..])
  }

  lemma {:induction false} SetbacksAreFew(s: State, a: nat, trace: seq<(nat, Choice)>)
    requires Inv(s)
    ensures Setbacks(s, a, trace) <= 4 * Disturbances(s, a, trace)
    decreases |trace|
  {
    if trace != [] && a < |s.agents| && Maintaining(s.agents[a].pc) {
      var (b, c) := trace[0];
      NextKeepsInv(s, b, c);
      SetbackIsWeighed(s, b, c);
      SetbacksAreFew(Next(s, b, c), a, trace[1..]);
    }
  }

  /** So Maintain ends whenever it gets the lock when it asks and the others make finitely many
      calls: from the call on it makes at most 1482 steps, 20 for every pointer to reclaim, and 80
      for every call of the others. */
  lemma MaintainEnds(s: State, a: nat, trace: seq<(nat, Choice)>)
    requires Inv(s) && a < |s.agents| && s.agents[a].pc == Disabling(Gate)
    ensures OwnSteps(s, a, trace) <= 1482 + 20 * |s.reclaim| + 80 * Disturbances(s, a, trace)
  {
    MaintainIsBounded(s, a, trace);
    SetbacksAreFew(s, a, trace);
  }
}
