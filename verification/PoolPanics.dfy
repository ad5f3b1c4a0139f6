/** When the panics of the pool can be reached, over every interleaving of PoolSteps. */
module PoolPanics {
  import opened Common
  import opened SizeClasses
  import opened PoolValues
  import opened PoolSteps
  import opened PoolDiscipline

  lemma {:induction false} StoppedStays(s: State, trace: seq<(nat, Choice)>)
    requires !Running(s)
    ensures Run(s, trace) == s
    decreases |trace|
  {
    if trace != [] {
      StoppedStays(s, trace[1..]);
    }
  }

  // -- Underflow --

  /** The request that a step of agent a serves, or fails to serve, from the pool. */
  function Asked(s: State, a: nat): seq<nat> {
    if Running(s) && a < |s.agents| && s.agents[a].pc.Inside? && s.agents[a].pc.job.ServeAlloc?
       && s.agents[a].pc.job.size <= HALF_LIMIT
    then [s.agents[a].pc.job.size] else []
  }

  /** All of them, in the order in which the agents get the lock. */
  function Requests(s: State, trace: seq<(nat, Choice)>): seq<nat>
    decreases |trace|
  {
    if trace == [] then []
    else Asked(s, trace[0].0) + Requests(Next(s, trace[0].0, trace[0].1), trace[1..])
  }

  /** The agent neither empties groups nor is about to store an empty slot. */
  ghost predicate JobAdds(job: Job) {
    !job.Empty? && job != Drain(false) && (job.Put? ==> job.p.At?)
  }

  ghost predicate Adds(pc: PC) {
    match pc
    case Disabling(job) => JobAdds(job)
    case Spinning(job) => JobAdds(job)
    case Inside(job) => JobAdds(job)
    case Enabling(e) => e.Release? ==> JobAdds(e.next)
    case Outside(e) => e.Release? ==> JobAdds(e.next)
    case _ => true
  }

  /** No slot is empty, and none will be. */
  ghost predicate Stocked(s: State) {
    NoNulls(s.groups) && forall a :: 0 <= a < |s.agents| ==> Adds(s.agents[a].pc)
  }

  /** Nobody calls ReclaimAll, and calloc gives Maintain what it asks for. */
  ghost predicate CalmStep(s: State, a: nat, c: Choice) {
    && !c.StartReclaim?
    && (a < |s.agents| && s.agents[a].pc.Outside? && s.agents[a].pc.errand.Fetch? ==> c == Proceed(true))
  }

  ghost predicate Calm(s: State, trace: seq<(nat, Choice)>)
    decreases |trace|
  {
    trace == [] || (CalmStep(s, trace[0].0, trace[0].1) && Calm(Next(s, trace[0].0, trace[0].1), trace[1..]))
  }

  lemma {:induction false} SupplyAfterPush(gs: seq<Slots>, k: nat, p: Ptr, c: nat)
    requires k < |gs|
    ensures Supply(gs[k := gs[k] + [p]], c) >= Supply(gs, c)
    decreases |gs| - c
  {
    if c < |gs| {
      SupplyAfterPush(gs, k, p, c + 1);
    }
  }

  /** An allocation takes a slot away and leaves the others filled. */
  lemma AllocStocked(gs: seq<Slots>, size: nat)
    requires NoNulls(gs)
    ensures NoNulls(AllocFrom(gs, ClassOf(size)).0)
  {
    if ClassOf(size) <= |gs| {
      AllocWithoutNulls(gs, ClassOf(size));
    }
  }

  /** When there is enough for this request and those to come, it is served, and there is enough
      for those to come. */
  lemma AllocLeavesEnough(gs: seq<Slots>, size: nat, rest: seq<nat>)
    requires NoNulls(gs) && Enough(gs, [size] + rest)
    ensures var (gs', p) := AllocFrom(gs, ClassOf(size));
            p.At? && Enough(gs', rest)
  {
    var sizes := [size] + rest;
    var n := ClassOf(size);
    assert sizes[1..] == rest;
    var m := if n <= |gs| then n else |gs|;
    assert 1 <= Demand(sizes, m) <= Supply(gs, m);
    assert n <= |gs|;
    AllocWithoutNulls(gs, n);
    var k := Source(gs, n);
    SupplyOverEmpty(gs, n, k);
    assert k < |gs|;
    EnoughForOneMore(gs, sizes, k);
  }

  /** The groups after a calm step. */
  lemma CalmGroups(s: State, a: nat, c: Choice)
    requires Inv(s) && Stocked(s) && Running(s) && a < |s.agents|
    ensures var gs := Next(s, a, c).groups;
            match s.agents[a].pc
            case Inside(ServeAlloc(size)) =>
              gs == if size > HALF_LIMIT then s.groups else AllocFrom(s.groups, ClassOf(size)).0
            case Inside(Put(i, p)) => i < |s.groups| && p.At? && gs == s.groups[i := s.groups[i] + [p]]
            case _ => gs == s.groups
  {
    assert AgentOk(s.groups, s.agents[a]) && Adds(s.agents[a].pc);
  }

  /** The agent after a calm step. */
  lemma CalmAgent(s: State, a: nat, c: Choice)
    requires Running(s) && a < |s.agents| && Adds(s.agents[a].pc) && CalmStep(s, a, c)
    ensures var s' := Next(s, a, c);
            |s'.agents| == |s.agents| && s'.agents == s.agents[a := s'.agents[a]] && Adds(s'.agents[a].pc)
  {
    SameAgents(s, a, c);
    if s.agents[a].pc.Inside? {
      CalmInside(s, a, s.agents[a].pc.job);
    }
  }

  lemma CalmInside(s: State, a: nat, job: Job)
    requires a < |s.agents| && s.agents[a].pc == Inside(job) && JobAdds(job)
    ensures Adds(Locked(s, a, job).agents[a].pc)
  {
    match job
    case Drain(maintaining) => CalmDrain(s, a);
    case Fill(i) => CalmFill(s, a, i);
    case _ =>
  }

  lemma CalmDrain(s: State, a: nat)
    requires a < |s.agents| && s.agents[a].pc == Inside(Drain(true))
    ensures Adds(Locked(s, a, Drain(true)).agents[a].pc)
  {
  }

  lemma CalmFill(s: State, a: nat, i: nat)
    requires a < |s.agents| && s.agents[a].pc == Inside(Fill(i))
    ensures Adds(Locked(s, a, Fill(i)).agents[a].pc)
  {
  }

  lemma CalmKeepsStocked(s: State, a: nat, c: Choice)
    requires Inv(s) && Stocked(s) && CalmStep(s, a, c)
    ensures Stocked(Next(s, a, c))
  {
    if Running(s) && a < |s.agents| {
      CalmGroups(s, a, c);
      CalmAgent(s, a, c);
      match s.agents[a].pc
      case Inside(ServeAlloc(size)) => AllocStocked(s.groups, size);
      case _ =>
    }
  }

  /** No group from class n on has a block on top. */
  ghost predicate NothingOnTop(gs: seq<Slots>, n: nat) {
    forall m :: n <= m < |gs| ==> gs[m] == [] || Last(gs[m]).Null?
  }

  lemma NullIffNothingOnTop(gs: seq<Slots>, n: nat)
    ensures AllocFrom(gs, n).1.Null? <==> NothingOnTop(gs, n)
  {
    if n <= |gs| {
      AllocFromEffect(gs, n);
    }
  }

  /** A step underflows exactly when it serves a request for which no group from its class on has a
      block on top. */
  lemma UnderflowsIff(s: State, a: nat, c: Choice)
    requires s.panic != Underflow
    ensures Next(s, a, c).panic == Underflow <==>
              Asked(s, a) != [] && NothingOnTop(s.groups, ClassOf(Asked(s, a)[0]))
  {
    if Running(s) && a < |s.agents| && s.agents[a].pc.Inside? {
      UnderflowsInside(s, a, s.agents[a].pc.job);
    }
  }

  lemma UnderflowsInside(s: State, a: nat, job: Job)
    requires Running(s) && a < |s.agents| && s.agents[a].pc == Inside(job)
    ensures Locked(s, a, job).panic == Underflow <==>
              Asked(s, a) != [] && NothingOnTop(s.groups, ClassOf(Asked(s, a)[0]))
  {
    if job.ServeAlloc? {
      NullIffNothingOnTop(s.groups, ClassOf(job.size));
    }
  }

  /** One step: it does not underflow, and leaves enough for the requests that follow. */
  lemma CalmKeepsEnough(s: State, a: nat, c: Choice, rest: seq<nat>)
    requires Inv(s) && Stocked(s) && s.panic != Underflow && Enough(s.groups, Asked(s, a) + rest)
    ensures Next(s, a, c).panic != Underflow && Enough(Next(s, a, c).groups, rest)
  {
    if Asked(s, a) == [] {
      assert [] + rest == rest;
    }
    UnderflowsIff(s, a, c);
    if Running(s) && a < |s.agents| {
      CalmGroups(s, a, c);
      match s.agents[a].pc
      case Inside(ServeAlloc(size)) =>
        if size <= HALF_LIMIT {
          AllocLeavesEnough(s.groups, size, rest);
          NullIffNothingOnTop(s.groups, ClassOf(size));
        }
      case Inside(Put(i, p)) =>
        PushKeepsEnough(s.groups, i, p, rest);
      case _ =>
    }
  }

  lemma PushKeepsEnough(gs: seq<Slots>, i: nat, p: Ptr, sizes: seq<nat>)
    requires i < |gs| && Enough(gs, sizes)
    ensures Enough(gs[i := gs[i] + [p]], sizes)
  {
    forall c: nat | c <= |gs| ensures Demand(sizes, c) <= Supply(gs[i := gs[i] + [p]], c) {
      SupplyAfterPush(gs, i, p, c);
      assert Demand(sizes, c) <= Supply(gs, c);
    }
  }

  /** No interleaving underflows while for every class the requests of that class or higher are no
      more than the blocks the groups held at the beginning; refills only help. */
  lemma {:induction false} NoUnderflow(s: State, trace: seq<(nat, Choice)>)
    requires Inv(s) && Stocked(s) && Calm(s, trace) && s.panic != Underflow
    requires Enough(s.groups, Requests(s, trace))
    ensures Run(s, trace).panic != Underflow
    decreases |trace|
  {
    if trace != [] {
      var (a, c) := trace[0];
      var s1 := Next(s, a, c);
      NextKeepsInv(s, a, c);
      CalmKeepsStocked(s, a, c);
      CalmKeepsEnough(s, a, c, Requests(s1, trace[1..]));
      NoUnderflow(s1, trace[1..]);
    }
  }

  /** From full groups: 16 * (4 - c) requests of class c or higher are always served, whoever makes
      them and however the agents interleave. */
  lemma FullPoolInterleaved(s: State, trace: seq<(nat, Choice)>)
    requires Inv(s) && Stocked(s) && Calm(s, trace) && s.panic != Underflow
    requires Full(s.groups) && WithinBudget(Requests(s, trace))
    ensures Run(s, trace).panic != Underflow
  {
    EnoughOfFull(s.groups, Requests(s, trace));
    NoUnderflow(s, trace);
  }

  /** What Maintain, left alone, brings into the groups are blocks when calloc gives them: from a pool
      without null slots comes a full one without. */
  lemma {:induction false} SoloStaysStocked(s: State, a: nat, outcomes: seq<bool>)
    requires Inv(s) && Stocked(s) && a < |s.agents| && forall k :: 0 <= k < |outcomes| ==> outcomes[k]
    ensures Stocked(Solo(s, a, outcomes))
    decreases |outcomes|
  {
    if outcomes != [] && s.agents[a].pc != Idle {
      NextKeepsInv(s, a, Proceed(outcomes[0]));
      CalmKeepsStocked(s, a, Proceed(outcomes[0]));
      SameAgents(s, a, Proceed(outcomes[0]));
      SoloStaysStocked(Next(s, a, Proceed(outcomes[0])), a, outcomes[1..]);
    }
  }

  lemma MaintainStocks(s: State, a: nat, outcomes: seq<bool>, sizes: seq<nat>)
    requires Inv(s) && Stocked(s) && s.panic == NoPanic && s.lock == Open && s.level == 0
    requires a < |s.agents| && s.agents[a].pc == Disabling(Gate)
    requires |outcomes| >= 20 * (|s.reclaim| + GROUP_COUNT * GROUP_MAX) + 202
    requires forall k :: 0 <= k < |outcomes| ==> outcomes[k]
    ensures var s' := Solo(s, a, outcomes);
            NoNulls(s'.groups) && Full(s'.groups) && (Served(s'.groups, sizes) <==> WithinBudget(sizes))
  {
    SoloStaysStocked(s, a, outcomes);
    MaintainAloneCompletes(s, a, outcomes);
    FullPoolNeverUnderflowsIff(Solo(s, a, outcomes).groups, sizes);
  }

  // -- The bound is tight --

  /** One agent with interrupts disabled makes these requests one after the other. */
  function Script(a: nat, sizes: seq<nat>): seq<(nat, Choice)> {
    if sizes == [] then []
    else [(a, AllocMem(sizes[0], true)), (a, Proceed(true)), (a, Proceed(true))] + Script(a, sizes[1..])
  }

  ghost predicate Ready(s: State, a: nat) {
    Running(s) && s.lock == Open && a < |s.agents| && s.agents[a].pc == Idle && !s.agents[a].irq
  }

  lemma RunThree(s: State, x: (nat, Choice), y: (nat, Choice), z: (nat, Choice), rest: seq<(nat, Choice)>)
    ensures Run(s, [x, y, z] + rest) == Run(Next(Next(Next(s, x.0, x.1), y.0, y.1), z.0, z.1), rest)
  {
    RunOne(s, x, [y, z] + rest);
    RunOne(Next(s, x.0, x.1), y, [z] + rest);
    RunOne(Next(Next(s, x.0, x.1), y.0, y.1), z, rest);
    assert [x, y, z] + rest == [x] + ([y, z] + rest);
    assert [y, z] + rest == [y] + ([z] + rest);
  }

  lemma RunOne(s: State, x: (nat, Choice), rest: seq<(nat, Choice)>)
    ensures Run(s, [x] + rest) == Run(Next(s, x.0, x.1), rest)
  {
    assert ([x] + rest)[1..] == rest;
  }

  /** One request: wait for the lock, take it, be served. */
  lemma OneRequest(s: State, a: nat, size: nat)
    requires Ready(s, a) && size <= HALF_LIMIT
    ensures var s3 := Next(Next(Next(s, a, AllocMem(size, true)), a, Proceed(true)), a, Proceed(true));
            var (gs, p) := AllocFrom(s.groups, ClassOf(size));
            s3.groups == gs && if p.Null? then s3.panic == Underflow else Ready(s3, a)
  {
    var s1 := Next(s, a, AllocMem(size, true));
    assert s1 == Goto(s, a, Spinning(ServeAlloc(size)));
    var s2 := Next(s1, a, Proceed(true));
    assert s2 == Goto(s1, a, Inside(ServeAlloc(size))).(lock := Held(a));
    assert Next(s2, a, Proceed(true)) == Locked(s2, a, ServeAlloc(size));
  }

  /** The step machine refines the sequential pool: a lone caller underflows exactly when its
      requests are not served. So for every list beyond the budget some interleaving underflows. */
  lemma {:induction false} ScriptUnderflowsIff(s: State, a: nat, sizes: seq<nat>)
    requires Ready(s, a) && forall k :: 0 <= k < |sizes| ==> sizes[k] <= HALF_LIMIT
    ensures Run(s, Script(a, sizes)).panic == Underflow <==> !Served(s.groups, sizes)
    decreases |sizes|
  {
    if sizes != [] {
      var rest := Script(a, sizes[1..]);
      var x, y := (a, AllocMem(sizes[0], true)), (a, Proceed(true));
      var s3 := Next(Next(Next(s, a, AllocMem(sizes[0], true)), a, Proceed(true)), a, Proceed(true));
      RunThree(s, x, y, y, rest);
      OneRequest(s, a, sizes[0]);
      if s3.panic == Underflow {
        StoppedStays(s3, rest);
      } else {
        ScriptUnderflowsIff(s3, a, sizes[1..]);
      }
    }
  }

  /** From full groups the budget is the exact bound. */
  lemma BudgetIsTight(s: State, a: nat, sizes: seq<nat>)
    requires Ready(s, a) && NoNulls(s.groups) && Full(s.groups)
    requires forall k :: 0 <= k < |sizes| ==> sizes[k] <= HALF_LIMIT
    ensures Run(s, Script(a, sizes)).panic == Underflow <==> !WithinBudget(sizes)
  {
    ScriptUnderflowsIff(s, a, sizes);
    FullPoolNeverUnderflowsIff(s.groups, sizes);
  }

  // -- Overflow --

  ghost predicate FreesNow(s: State, a: nat) {
    Running(s) && a < |s.agents| && s.agents[a].pc.Inside? && s.agents[a].pc.job.ServeFree?
  }

  /** Pointers given to IntrSafePool::Free during a run. */
  ghost function Frees(s: State, trace: seq<(nat, Choice)>): nat
    decreases |trace|
  {
    if trace == [] then 0
    else (if FreesNow(s, trace[0].0) then 1 else 0) + Frees(Next(s, trace[0].0, trace[0].1), trace[1..])
  }

  lemma ReclaimGrowth(s: State, a: nat, c: Choice)
    requires s.panic != Overflow && |s.reclaim| + (if FreesNow(s, a) then 1 else 0) <= RECLAIM_MAX
    ensures var s' := Next(s, a, c);
            s'.panic != Overflow && |s'.reclaim| <= |s.reclaim| + (if FreesNow(s, a) then 1 else 0)
  {
    if Running(s) && a < |s.agents| && s.agents[a].pc.Inside? {
      ReclaimGrowthInside(s, a, s.agents[a].pc.job);
    }
  }

  lemma ReclaimGrowthInside(s: State, a: nat, job: Job)
    requires a < |s.agents| && s.panic == NoPanic
    ensures var s' := Locked(s, a, job);
            && |s'.reclaim| <= |s.reclaim| + (if job.ServeFree? then 1 else 0)
            && (s'.panic == Overflow ==> job.ServeFree? && |s.reclaim| >= RECLAIM_MAX)
  {
  }

  /** No interleaving overflows the reclaim list with at most 4096 frees since it was last empty. */
  lemma {:induction false} NoOverflow(s: State, trace: seq<(nat, Choice)>)
    requires s.panic != Overflow && |s.reclaim| + Frees(s, trace) <= RECLAIM_MAX
    ensures Run(s, trace).panic != Overflow
    decreases |trace|
  {
    if trace != [] {
      ReclaimGrowth(s, trace[0].0, trace[0].1);
      NoOverflow(Next(s, trace[0].0, trace[0].1), trace[1..]);
    }
  }

  /** One agent with interrupts disabled calls os_free_mem(nullptr) n times. */
  function FreeScript(a: nat, n: nat): seq<(nat, Choice)> {
    if n == 0 then []
    else [(a, FreeMem(Null)), (a, Proceed(true)), (a, Proceed(true))] + FreeScript(a, n - 1)
  }

  lemma OneFree(s: State, a: nat)
    requires Ready(s, a)
    ensures var s3 := Next(Next(Next(s, a, FreeMem(Null)), a, Proceed(true)), a, Proceed(true));
            if |s.reclaim| >= RECLAIM_MAX then s3.panic == Overflow
            else Ready(s3, a) && |s3.reclaim| == |s.reclaim| + 1
  {
    var s1 := Next(s, a, FreeMem(Null));
    assert s1 == Goto(s, a, Spinning(ServeFree(Null)));
    var s2 := Next(s1, a, Proceed(true));
    assert s2 == Goto(s1, a, Inside(ServeFree(Null))).(lock := Held(a));
    assert Next(s2, a, Proceed(true)) == Locked(s2, a, ServeFree(Null));
  }

  /** And that is the exact bound: null pointers take room as well. */
  lemma {:induction false} FreeScriptOverflowsIff(s: State, a: nat, n: nat)
    requires Ready(s, a) && |s.reclaim| <= RECLAIM_MAX
    ensures Run(s, FreeScript(a, n)).panic == Overflow <==> |s.reclaim| + n > RECLAIM_MAX
    decreases n
  {
    if n > 0 {
      var rest := FreeScript(a, n - 1);
      var x, y := (a, FreeMem(Null)), (a, Proceed(true));
      var s3 := Next(Next(Next(s, a, FreeMem(Null)), a, Proceed(true)), a, Proceed(true));
      RunThree(s, x, y, y, rest);
      OneFree(s, a);
      if s3.panic == Overflow {
        StoppedStays(s3, rest);
      } else {
        FreeScriptOverflowsIff(s3, a, n - 1);
      }
    }
  }

  // -- A request that is too large --

  /** Above 2^63 bytes the doubling loop keeps the lock for ever: no step of anybody takes it away. */
  lemma {:induction false} LargeRequestKeepsLock(s: State, trace: seq<(nat, Choice)>, a: nat, size: nat)
    requires Inv(s) && a < |s.agents| && s.agents[a].pc == Inside(ServeAlloc(size)) && size > HALF_LIMIT
    ensures var s' := Run(s, trace);
            a < |s'.agents| && s'.agents[a] == s.agents[a] && s'.lock == Held(a)
    decreases |trace|
  {
    if trace != [] {
      var (b, c) := trace[0];
      NextKeepsInv(s, b, c);
      SameAgents(s, b, c);
      LargeRequestKeepsLock(Next(s, b, c), trace[1..], a, size);
    }
  }
}
