/** What holds at every moment of every run of PoolSteps, when a release leads to Maintain, and
    what Maintain achieves when nobody interferes. */
module PoolDiscipline {
  import opened Common
  import opened SizeClasses
  import opened PoolValues
  import opened PoolSteps

  // -- Safety over whole runs --

  /** At most one agent is beyond the fLevel test, so its stores stay inside items[] although the
      bound was tested before the lock was dropped; nobody holds the pool lock with interrupts
      enabled; the overflow test inside the reclaim loops never fires. */
  lemma SafeOverRuns(s: State, trace: seq<(nat, Choice)>)
    requires Init(s)
    ensures var s' := Run(s, trace);
            && (forall a, b :: 0 <= a < b < |s'.agents| ==>
                  !(Refilling(s'.agents[a].pc) && Refilling(s'.agents[b].pc)))
            && !s'.overrun
            && (forall a, i: nat, p :: 0 <= a < |s'.agents| && s'.agents[a].pc == Inside(Put(i, p)) ==>
                  i < |s'.groups| && |s'.groups[i]| < GROUP_MAX)
            && (forall a :: 0 <= a < |s'.agents| && s'.agents[a].pc.Inside? ==>
                  s'.lock == Held(a) && !s'.agents[a].irq)
            && s'.panic != Overflowed
            && |s'.reclaim| <= RECLAIM_MAX
            && forall i :: 0 <= i < |s'.groups| ==> |s'.groups[i]| <= GROUP_MAX
  {
    InitHolds(s);
    RunKeepsInv(s, trace);
    var s' := Run(s, trace);
    assert forall a :: 0 <= a < |s'.agents| ==> AgentOk(s'.groups, s'.agents[a]);
  }

  /** A request served at any moment of any run gets a block of at least the size asked for. */
  lemma ServedIsLargeEnough(s: State, trace: seq<(nat, Choice)>, a: nat, size: nat, c: Choice)
    requires Init(s)
    requires var s1 := Run(s, trace);
             a < |s1.agents| && s1.agents[a].pc == Inside(ServeAlloc(size))
    ensures var s1 := Run(s, trace);
            var s2 := Next(s1, a, c);
            forall b :: b in s2.clients && b !in s1.clients ==> b.size >= size
  {
    InitHolds(s);
    RunKeepsInv(s, trace);
    AllocIsLargeEnough(Run(s, trace).groups, size);
  }

  // -- The interrupt flag --

  /** Agent a is free to make a call. */
  predicate CanCall(s: State, a: nat) {
    Running(s) && a < |s.agents| && s.agents[a].pc == Idle
  }

  /** How many OS spinlocks agent a holds after a run, counted from the calls it has made. */
  function Depth(s: State, a: nat, trace: seq<(nat, Choice)>, held: nat): nat
    decreases |trace|
  {
    if trace == [] then held
    else
      var (b, c) := trace[0];
      Depth(Next(s, b, c), a, trace[1..],
            if b != a || !CanCall(s, a) then held
            else if c.AcquireOs? then held + 1
            else if c.ReleaseOs? && held > 0 then held - 1
            else held)
  }

  ghost predicate NestedPC(pc: PC) {
    (pc.Spinning? || pc.Inside?) && Nested(pc.job)
  }

  /** The agent holds that many locks, and the outermost one will give back the flag `on`. */
  ghost predicate FlagOk(g: Agent, on: bool, held: nat) {
    && |g.saved| == held
    && (held > 0 ==> g.saved[0] == on)
    && (held == 0 ==> if g.pc == Idle then g.irq == on else if NestedPC(g.pc) then !on else on)
  }

  lemma CallKeepsFlagOk(s: State, a: nat, c: Choice, on: bool, held: nat)
    requires Inv(s) && CanCall(s, a) && FlagOk(s.agents[a], on, held)
    ensures FlagOk(Call(s, a, c).agents[a], on,
                   if c.AcquireOs? then held + 1 else if c.ReleaseOs? && held > 0 then held - 1 else held)
  {
    assert AgentOk(s.groups, s.agents[a]);
  }

  lemma LockedKeepsFlagOk(s: State, a: nat, job: Job, on: bool, held: nat)
    requires Inv(s) && a < |s.agents| && s.agents[a].pc == Inside(job) && FlagOk(s.agents[a], on, held)
    ensures FlagOk(Locked(s, a, job).agents[a], on, held)
  {
    assert AgentOk(s.groups, s.agents[a]);
    match job
    case Drain(maintaining) => DrainKeepsFlagOk(s, a, maintaining, on, held);
    case Fill(i) => FillKeepsFlagOk(s, a, i, on, held);
    case Empty(i) => EmptyKeepsFlagOk(s, a, i, on, held);
    case _ =>
  }

  lemma DrainKeepsFlagOk(s: State, a: nat, maintaining: bool, on: bool, held: nat)
    requires a < |s.agents| && s.agents[a].pc == Inside(Drain(maintaining)) && FlagOk(s.agents[a], on, held)
    ensures FlagOk(Locked(s, a, Drain(maintaining)).agents[a], on, held)
  {
  }

  lemma FillKeepsFlagOk(s: State, a: nat, i: nat, on: bool, held: nat)
    requires a < |s.agents| && s.agents[a].pc == Inside(Fill(i)) && FlagOk(s.agents[a], on, held)
    ensures FlagOk(Locked(s, a, Fill(i)).agents[a], on, held)
  {
  }

  lemma EmptyKeepsFlagOk(s: State, a: nat, i: nat, on: bool, held: nat)
    requires a < |s.agents| && s.agents[a].pc == Inside(Empty(i)) && FlagOk(s.agents[a], on, held)
    ensures FlagOk(Locked(s, a, Empty(i)).agents[a], on, held)
  {
  }

  lemma BusyKeepsFlagOk(s: State, a: nat, c: Choice, on: bool, held: nat)
    requires Inv(s) && a < |s.agents| && s.agents[a].pc != Idle && FlagOk(s.agents[a], on, held)
    ensures a < |Next(s, a, c).agents| && FlagOk(Next(s, a, c).agents[a], on, held)
  {
    SameAgents(s, a, c);
    assert AgentOk(s.groups, s.agents[a]);
    if Running(s) && s.agents[a].pc.Inside? {
      LockedKeepsFlagOk(s, a, s.agents[a].pc.job, on, held);
    }
  }

  lemma {:induction false} RunKeepsFlagOk(s: State, a: nat, trace: seq<(nat, Choice)>, on: bool, held: nat)
    requires Inv(s) && a < |s.agents| && FlagOk(s.agents[a], on, held)
    ensures a < |Run(s, trace).agents| && FlagOk(Run(s, trace).agents[a], on, Depth(s, a, trace, held))
    decreases |trace|
  {
    if trace != [] {
      var (b, c) := trace[0];
      NextKeepsInv(s, b, c);
      SameAgents(s, b, c);
      if b == a {
        if s.agents[a].pc != Idle {
          BusyKeepsFlagOk(s, a, c, on, held);
        } else if Running(s) {
          CallKeepsFlagOk(s, a, c, on, held);
        }
      }
      var held' := if b != a || !CanCall(s, a) then held
                   else if c.AcquireOs? then held + 1
                   else if c.ReleaseOs? && held > 0 then held - 1
                   else held;
      RunKeepsFlagOk(Next(s, b, c), a, trace[1..], on, held');
    }
  }

  /** At any moment of any run, between its calls an agent has interrupts enabled exactly when it
      holds no OS spinlock and had them enabled at the beginning. */
  lemma FlagBetweenCalls(s: State, trace: seq<(nat, Choice)>, a: nat)
    requires Init(s) && a < |s.agents|
    ensures var s1 := Run(s, trace);
            && a < |s1.agents|
            && (s1.agents[a].pc == Idle ==>
                  (s1.agents[a].irq <==> Depth(s, a, trace, 0) == 0 && s.agents[a].irq))
  {
    InitHolds(s);
    RunKeepsInv(s, trace);
    RunKeepsFlagOk(s, a, trace, s.agents[a].irq, 0);
    assert AgentOk(Run(s, trace).groups, Run(s, trace).agents[a]);
  }

  /** A release leads to Maintain exactly when it is the outermost one of its agent and the agent had
      interrupts enabled at the beginning, and enables them exactly then. */
  lemma ReleaseMaintainsIff(s: State, trace: seq<(nat, Choice)>, a: nat)
    requires Init(s) && a < |s.agents| && CanCall(Run(s, trace), a) && Depth(s, a, trace, 0) > 0
    ensures var g := Next(Run(s, trace), a, ReleaseOs).agents[a];
            var outermost := Depth(s, a, trace, 0) == 1 && s.agents[a].irq;
            g.pc == (if outermost then Disabling(Gate) else Idle) && (g.irq <==> outermost)
  {
    InitHolds(s);
    RunKeepsInv(s, trace);
    RunKeepsFlagOk(s, a, trace, s.agents[a].irq, 0);
    assert AgentOk(Run(s, trace).groups, Run(s, trace).agents[a]);
  }

  /** One acquire and one release, in any state: the flag is as before, and Maintain follows exactly
      when it was set. */
  lemma AcquireRelease(s: State, a: nat)
    requires CanCall(s, a)
    ensures var s1 := Next(s, a, AcquireOs);
            && !s1.agents[a].irq && s1.agents[a].pc == Idle
            && Next(s1, a, ReleaseOs)
                 == s.(agents := s.agents[a := s.agents[a].(pc := if s.agents[a].irq then Disabling(Gate) else Idle)])
  {
  }

  /** The driver calls Maintain and ReclaimAll from threads, with interrupts enabled. */
  lemma ThreadCalls(s: State, a: nat)
    requires CanCall(s, a) && s.agents[a].irq
    ensures Next(s, a, StartMaintain) == Goto(s, a, Disabling(Gate))
    ensures Next(s, a, StartReclaim) == Goto(s, a, Disabling(Drain(false)))
  {
  }

  // -- Heap or pool --

  /** os_alloc_mem with interrupts enabled asks the heap for as many bytes as it was asked for; with
      interrupts disabled it asks the pool, and nothing else changes. */
  lemma AllocMemRoute(s: State, a: nat, size: nat, ok: bool)
    requires CanCall(s, a)
    ensures var s' := Next(s, a, AllocMem(size, ok));
            if !s.agents[a].irq then s' == Goto(s, a, Spinning(ServeAlloc(size)))
            else if !ok then s' == s
            else
              exists b: Block :: b.size == size && s'.made == s.made + [b] && b.id == |s.made|
                && s' == s.(clients := s.clients + {b}, made := s'.made)
  {
    if s.agents[a].irq && ok {
      var b := Block(|s.made|, size);
      assert Next(s, a, AllocMem(size, ok)).made == s.made + [b];
    }
  }

  /** os_free_mem takes the block from the client, and gives it to the heap at once with interrupts
      enabled, to the pool with interrupts disabled. */
  lemma FreeMemRoute(s: State, a: nat, b: Block)
    requires CanCall(s, a) && b in s.clients
    ensures var s' := Next(s, a, FreeMem(At(b)));
            && b !in s'.clients
            && if s.agents[a].irq then s'.freed == s.freed + [b] && s'.agents == s.agents
               else s'.agents[a].pc == Spinning(ServeFree(At(b))) && s'.freed == s.freed
  {
  }

  // -- Maintain alone --

  /** Agent a runs on, nobody else does, until it is idle or the outcomes are used up. */
  function Solo(s: State, a: nat, outcomes: seq<bool>): State
    requires a < |s.agents|
    decreases |outcomes|
  {
    if outcomes == [] || s.agents[a].pc == Idle then s
    else
      SameAgents(s, a, Proceed(outcomes[0]));
      Solo(Next(s, a, Proceed(outcomes[0])), a, outcomes[1..])
  }

  /** How far Maintain has come, as its program counter promises it. */
  ghost predicate JobDone(s: State, job: Job) {
    match job
    case Gate => s.level == 0
    case Drain(maintaining) => maintaining
    case Fill(i) => s.reclaim == [] && FullBelow(s.groups, i)
    case Put(i, _) => s.reclaim == [] && FullBelow(s.groups, i)
    case _ => false
  }

  ghost predicate Done(s: State, pc: PC) {
    match pc
    case Disabling(job) => JobDone(s, job)
    case Spinning(job) => JobDone(s, job)
    case Inside(job) => JobDone(s, job)
    case Enabling(e) => if e.Fetch? then JobDone(s, Fill(e.i)) else e.next == Drain(true)
    case Outside(e) => if e.Fetch? then JobDone(s, Fill(e.i)) else e.next == Drain(true)
    case _ => s.reclaim == [] && FullBelow(s.groups, GROUP_COUNT)
  }

  ghost predicate Alone(s: State, a: nat) {
    && Inv(s) && s.panic == NoPanic && a < |s.agents|
    && (s.lock == Open || s.lock == Held(a))
    && Done(s, s.agents[a].pc)
  }

  /** Slots still to be emptied or filled. */
  function Backlog(s: State): int
    requires |s.groups| == GROUP_COUNT
  {
    |s.reclaim| + 4 * GROUP_MAX - |s.groups[0]| - |s.groups[1]| - |s.groups[2]| - |s.groups[3]|
  }

  function JobCost(job: Job): int {
    match job
    case Gate => 200
    case Drain(_) => 100
    case Fill(i) => 90 - 10 * i
    case Put(i, _) => 85 - 10 * i
    case Empty(i) => 90 - 10 * i
    case _ => 0
  }

  function ErrandCost(e: Errand): int {
    if e.Fetch? then 85 - 10 * e.i else JobCost(e.next)
  }

  /** The share of the program counter in what is left to do. */
  function Ahead(pc: PC): int {
    match pc
    case Idle => 0
    case Restoring => 1
    case Inside(job) => JobCost(job)
    case Spinning(job) => JobCost(job) + 1
    case Disabling(job) => JobCost(job) + 2
    case Outside(e) => ErrandCost(e) + 3
    case Enabling(e) => ErrandCost(e) + 4
  }

  /** An upper bound on the steps Maintain still needs. */
  function Cost(s: State, a: nat): int
    requires |s.groups| == GROUP_COUNT && a < |s.agents|
  {
    20 * Backlog(s) + Ahead(s.agents[a].pc)
  }

  lemma AloneMovesOn(s: State, a: nat, ok: bool)
    requires Alone(s, a) && s.agents[a].pc != Idle
    ensures var s' := Next(s, a, Proceed(ok));
            Alone(s', a) && Cost(s', a) < Cost(s, a)
  {
    NextKeepsInv(s, a, Proceed(ok));
    assert AgentOk(s.groups, s.agents[a]);
    match s.agents[a].pc
    case Inside(job) =>
      AloneInside(s, a, job);
    case _ =>
  }

  lemma AloneInside(s: State, a: nat, job: Job)
    requires Alone(s, a) && s.agents[a].pc == Inside(job)
    ensures var s' := Locked(s, a, job);
            && s'.panic == NoPanic && (s'.lock == Open || s'.lock == Held(a))
            && |s'.groups| == GROUP_COUNT && |s'.agents| == |s.agents|
            && Done(s', s'.agents[a].pc) && Cost(s', a) < Cost(s, a)
  {
    assert AgentOk(s.groups, s.agents[a]);
    match job
    case Put(i, p) =>
      assert i == 0 || i == 1 || i == 2 || i == 3;
    case _ =>
  }

  lemma CostIsPositive(s: State, a: nat)
    requires Alone(s, a)
    ensures Cost(s, a) >= 0 && (s.agents[a].pc != Idle ==> Cost(s, a) > 0)
  {
    assert AgentOk(s.groups, s.agents[a]);
    assert |s.groups[0]| <= 16 && |s.groups[1]| <= 16 && |s.groups[2]| <= 16 && |s.groups[3]| <= 16;
  }

  lemma {:induction false} SoloFinishes(s: State, a: nat, outcomes: seq<bool>)
    requires Alone(s, a) && |outcomes| >= Cost(s, a)
    ensures var s' := Solo(s, a, outcomes);
            Alone(s', a) && s'.agents[a].pc == Idle
    decreases |outcomes|
  {
    CostIsPositive(s, a);
    if s.agents[a].pc != Idle {
      AloneMovesOn(s, a, outcomes[0]);
      SoloFinishes(Next(s, a, Proceed(outcomes[0])), a, outcomes[1..]);
    }
  }

  /** Left alone, a Maintain that passes the fLevel test ends, whichever heap calls succeed, with
      the reclaim list empty, every group holding 16 slots, lock and level as it found them. The
      other agents may be anywhere outside the lock. */
  lemma MaintainAloneCompletes(s: State, a: nat, outcomes: seq<bool>)
    requires Inv(s) && s.panic == NoPanic && s.lock == Open && s.level == 0
    requires a < |s.agents| && s.agents[a].pc == Disabling(Gate)
    requires |outcomes| >= 20 * (|s.reclaim| + GROUP_COUNT * GROUP_MAX) + 202
    ensures var s' := Solo(s, a, outcomes);
            && |s'.agents| == |s.agents| && s'.agents[a] == Agent(Idle, true, [])
            && s'.reclaim == [] && Full(s'.groups)
            && s'.lock == Open && s'.level == 0 && s'.panic == NoPanic
  {
    assert AgentOk(s.groups, s.agents[a]);
    SoloFinishes(s, a, outcomes);
    SoloKeepsFlag(s, a, outcomes);
    var s' := Solo(s, a, outcomes);
    assert forall i :: 0 <= i < |s'.groups| ==> |s'.groups[i]| == GROUP_MAX;
    SoloOthers(s, a, outcomes);
    assert forall b :: 0 <= b < |s.agents| ==> !Refilling(s.agents[b].pc);
    assert forall b :: 0 <= b < |s'.agents| ==> !Refilling(s'.agents[b].pc);
  }

  /** A Maintain that finds another one under way goes back at once and changes nothing. */
  lemma NestedMaintainReturns(s: State, a: nat, c1: Choice, c2: Choice, c3: Choice, c4: Choice)
    requires Inv(s) && Running(s) && s.lock == Open && s.level > 0
    requires a < |s.agents| && s.agents[a].pc == Disabling(Gate)
    ensures var s' := Next(Next(Next(Next(s, a, c1), a, c2), a, c3), a, c4);
            s' == s.(agents := s.agents[a := Agent(Idle, true, [])])
  {
    assert AgentOk(s.groups, s.agents[a]);
    var g := s.agents[a];
    var s1 := Next(s, a, c1);
    assert s1 == s.(agents := s.agents[a := g.(pc := Spinning(Gate), irq := false)]);
    var s2 := Next(s1, a, c2);
    assert s2 == s.(agents := s.agents[a := g.(pc := Inside(Gate), irq := false)], lock := Held(a));
    var s3 := Next(s2, a, c3);
    assert s3 == s.(agents := s.agents[a := g.(pc := Restoring, irq := false)]);
  }

  /** Interrupts are on again when the agent is idle. */
  ghost predicate WillRestore(g: Agent) {
    g.saved == [] && (g.pc == Idle ==> g.irq) &&
    (g.pc.Disabling? || g.pc.Spinning? || g.pc.Inside? ==> !Nested(g.pc.job)) &&
    (g.pc.Enabling? || g.pc.Outside? ==> g.pc.errand.Fetch? || !Nested(g.pc.errand.next))
  }

  lemma NextKeepsFlag(s: State, a: nat, c: Choice)
    requires Inv(s) && a < |s.agents| && WillRestore(s.agents[a])
    requires c.Proceed? && s.agents[a].pc != Idle
    ensures var s' := Next(s, a, c); a < |s'.agents| && WillRestore(s'.agents[a])
  {
    assert AgentOk(s.groups, s.agents[a]);
    if s.panic == NoPanic && s.agents[a].pc.Inside? {
      LockedKeepsFlag(s, a, s.agents[a].pc.job);
    }
  }

  lemma LockedKeepsFlag(s: State, a: nat, job: Job)
    requires a < |s.agents| && s.agents[a].pc == Inside(job) && WillRestore(s.agents[a])
    ensures var s' := Locked(s, a, job); a < |s'.agents| && WillRestore(s'.agents[a])
  {
    match job
    case Gate =>
    case Drain(maintaining) => DrainKeepsFlag(s, a, maintaining);
    case Fill(i) => FillKeepsFlag(s, a, i);
    case Put(i, p) =>
    case Empty(i) => EmptyKeepsFlag(s, a, i);
  }

  lemma DrainKeepsFlag(s: State, a: nat, maintaining: bool)
    requires a < |s.agents| && s.agents[a].pc == Inside(Drain(maintaining)) && WillRestore(s.agents[a])
    ensures WillRestore(Locked(s, a, Drain(maintaining)).agents[a])
  {
  }

  lemma FillKeepsFlag(s: State, a: nat, i: nat)
    requires a < |s.agents| && s.agents[a].pc == Inside(Fill(i)) && WillRestore(s.agents[a])
    ensures WillRestore(Locked(s, a, Fill(i)).agents[a])
  {
  }

  lemma EmptyKeepsFlag(s: State, a: nat, i: nat)
    requires a < |s.agents| && s.agents[a].pc == Inside(Empty(i)) && WillRestore(s.agents[a])
    ensures WillRestore(Locked(s, a, Empty(i)).agents[a])
  {
  }

  lemma {:induction false} SoloKeepsFlag(s: State, a: nat, outcomes: seq<bool>)
    requires Inv(s) && a < |s.agents| && WillRestore(s.agents[a])
    ensures var s' := Solo(s, a, outcomes);
            a < |s'.agents| && WillRestore(s'.agents[a])
    decreases |outcomes|
  {
    if outcomes != [] && s.agents[a].pc != Idle {
      NextKeepsInv(s, a, Proceed(outcomes[0]));
      NextKeepsFlag(s, a, Proceed(outcomes[0]));
      SoloKeepsFlag(Next(s, a, Proceed(outcomes[0])), a, outcomes[1..]);
    }
  }

  /** Nobody else moves, and nobody else comes to hold the gate. */
  lemma {:induction false} SoloOthers(s: State, a: nat, outcomes: seq<bool>)
    requires a < |s.agents|
    ensures var s' := Solo(s, a, outcomes);
            |s'.agents| == |s.agents| && forall b :: 0 <= b < |s.agents| && b != a ==> s'.agents[b] == s.agents[b]
    decreases |outcomes|
  {
    if outcomes != [] && s.agents[a].pc != Idle {
      SameAgents(s, a, Proceed(outcomes[0]));
      SoloOthers(Next(s, a, Proceed(outcomes[0])), a, outcomes[1..]);
    }
  }
}
