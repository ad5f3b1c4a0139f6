/** The interrupt-safe pool under any interleaving.

    Agents are execution contexts: threads, interrupt handlers, CPUs in the middle of either. One
    step is one locked section, one interrupt-flag change, or one heap call made with the lock
    dropped. A run is any sequence of (agent, choice) pairs. */
module PoolSteps {
  import opened Common
  import opened SizeClasses
  import opened PoolValues

  /** What an agent does, or will go on with, while it holds the pool lock. */
  datatype Job =
    | ServeAlloc(size: nat)      // IntrSafePool::Alloc
    | ServeFree(p: Ptr)          // IntrSafePool::Free
    | Gate                       // Maintain, before the fLevel test
    | Drain(maintaining: bool)   // head of the loop over the reclaim list
    | Fill(i: nat)               // head of Maintain's loop over group i
    | Put(i: nat, p: Ptr)        // about to store a new block in group i
    | Empty(i: nat)              // head of the loop over group i in ReclaimAll

  /** What it does with the lock dropped and interrupts enabled. */
  datatype Errand = Release(p: Ptr, next: Job) | Fetch(i: nat)

  datatype PC =
    | Idle
    | Disabling(job: Job)        // about to disable interrupts
    | Spinning(job: Job)         // waiting for the lock
    | Inside(job: Job)           // holding the lock
    | Enabling(errand: Errand)   // lock dropped, about to enable interrupts
    | Outside(errand: Errand)    // about to call free or calloc
    | Restoring                  // lock dropped for good, about to restore the interrupt flag

  /** saved: the interrupt states returned by the OS spinlocks the agent holds, innermost last. */
  datatype Agent = Agent(pc: PC, irq: bool, saved: seq<bool>)

  datatype Panic = NoPanic | Underflow | Overflow | Overflowed

  datatype State = State(
    groups: seq<Slots>,
    reclaim: Slots,
    lock: Lock,
    level: int,
    agents: seq<Agent>,
    clients: set<Block>,   // blocks the driver holds
    made: seq<Block>,      // every block calloc returned
    freed: seq<Block>,     // every block given back to the heap
    gate: Lock,            // history: the agent that passed the fLevel test
    panic: Panic,
    overrun: bool          // a store past the end of items[]
  )

  /** What an idle agent calls, or how a heap call made by a busy one turns out. */
  datatype Choice =
    | AcquireOs
    | ReleaseOs
    | AllocMem(size: nat, ok: bool)
    | FreeMem(p: Ptr)
    | StartMaintain
    | StartReclaim
    | Proceed(ok: bool)

  // -- Steps --

  predicate Running(s: State) {
    s.panic == NoPanic && !s.overrun
  }

  function Goto(s: State, a: nat, pc: PC): State
    requires a < |s.agents|
  {
    s.(agents := s.agents[a := s.agents[a].(pc := pc)])
  }

  function GotoIrq(s: State, a: nat, pc: PC, irq: bool): State
    requires a < |s.agents|
  {
    s.(agents := s.agents[a := s.agents[a].(pc := pc, irq := irq)])
  }

  function Next(s: State, a: nat, c: Choice): State {
    if !Running(s) || a >= |s.agents| then s
    else match s.agents[a].pc
      case Idle => Call(s, a, c)
      case Disabling(job) => GotoIrq(s, a, Spinning(job), false)
      case Spinning(job) => if s.lock.Held? then s else Goto(s, a, Inside(job)).(lock := Held(a))
      case Inside(job) => Locked(s, a, job)
      case Enabling(e) => GotoIrq(s, a, Outside(e), true)
      case Outside(e) => Unlocked(s, a, e, c)
      case Restoring => GotoIrq(s, a, Idle, true)
  }

  /** os_acquire_spinlock, os_release_spinlock, os_alloc_mem, os_free_mem, and the two calls the
      driver makes from thread context. */
  function Call(s: State, a: nat, c: Choice): State
    requires a < |s.agents|
  {
    var g := s.agents[a];
    match c
    case AcquireOs =>
      s.(agents := s.agents[a := g.(irq := false, saved := g.saved + [g.irq])])
    case ReleaseOs =>
      if g.saved == [] then s
      else
        var was := g.saved[|g.saved| - 1];
        s.(agents := s.agents[a := Agent(if was then Disabling(Gate) else Idle, was, g.saved[..|g.saved| - 1])])
    case AllocMem(size, ok) =>
      if !g.irq then Goto(s, a, Spinning(ServeAlloc(size)))
      else if !ok then s
      else
        var b := Block(|s.made|, size);
        s.(clients := s.clients + {b}, made := s.made + [b])
    case FreeMem(p) =>
      if p.At? && p.block !in s.clients then s
      else
        var s' := if p.At? then s.(clients := s.clients - {p.block}) else s;
        if !g.irq then Goto(s', a, Spinning(ServeFree(p)))
        else if p.At? then s'.(freed := s'.freed + [p.block]) else s'
    case StartMaintain => if g.irq then Goto(s, a, Disabling(Gate)) else s
    case StartReclaim => if g.irq then Goto(s, a, Disabling(Drain(false))) else s
    case Proceed(_) => s
  }

  function Unlock(s: State, a: nat, pc: PC): State
    requires a < |s.agents|
  {
    Goto(s, a, pc).(lock := Open)
  }

  function Locked(s: State, a: nat, job: Job): State
    requires a < |s.agents|
  {
    match job
    case ServeAlloc(size) =>
      if size > HALF_LIMIT then s // the doubling loop never ends
      else
        var (gs, p) := AllocFrom(s.groups, ClassOf(size));
        if p.Null? then s.(groups := gs, panic := Underflow)
        else Unlock(s.(groups := gs, clients := s.clients + {p.block}), a, Idle)
    case ServeFree(p) =>
      if |s.reclaim| >= RECLAIM_MAX then s.(panic := Overflow)
      else Unlock(s.(reclaim := s.reclaim + [p]), a, Idle)
    case Gate =>
      if s.level > 0 then Unlock(s, a, Restoring)
      else Goto(s, a, Inside(Drain(true))).(level := s.level + 1, gate := Held(a))
    case Drain(maintaining) =>
      if s.reclaim == [] then Goto(s, a, Inside(if maintaining then Fill(0) else Empty(0)))
      else if |s.reclaim| > RECLAIM_MAX then s.(panic := Overflowed)
      else Unlock(s.(reclaim := Front(s.reclaim)), a, Enabling(Release(Last(s.reclaim), job)))
    case Fill(i) =>
      if i >= |s.groups| then Unlock(s, a, Restoring).(level := s.level - 1, gate := Open)
      else if |s.groups[i]| < GROUP_MAX then Unlock(s, a, Enabling(Fetch(i)))
      else Goto(s, a, Inside(Fill(i + 1)))
    case Put(i, p) =>
      if i >= |s.groups| || |s.groups[i]| >= GROUP_MAX then s.(overrun := true)
      else Goto(s, a, Inside(Fill(i))).(groups := s.groups[i := s.groups[i] + [p]])
    case Empty(i) =>
      if i >= |s.groups| then Unlock(s, a, Restoring)
      else if s.groups[i] == [] then Goto(s, a, Inside(Empty(i + 1)))
      else if |s.groups[i]| > GROUP_MAX then s.(panic := Overflowed)
      else Unlock(s.(groups := s.groups[i := Front(s.groups[i])]), a, Enabling(Release(Last(s.groups[i]), job)))
  }

  function Unlocked(s: State, a: nat, e: Errand, c: Choice): State
    requires a < |s.agents|
  {
    match e
    case Release(p, next) =>
      var s' := Goto(s, a, Disabling(next));
      if p.At? then s'.(freed := s'.freed + [p.block]) else s'
    case Fetch(i) =>
      if c.Proceed? && c.ok then
        var b := Block(|s.made|, Capacity(i));
        Goto(s, a, Disabling(Put(i, At(b)))).(made := s.made + [b])
      else
        Goto(s, a, Disabling(Put(i, Null)))
  }

  /** Only the agent that makes the step moves. */
  lemma SameAgents(s: State, a: nat, c: Choice)
    ensures |Next(s, a, c).agents| == |s.agents|
    ensures forall b :: 0 <= b < |s.agents| && b != a ==> Next(s, a, c).agents[b] == s.agents[b]
  {
    if s.panic == NoPanic && !s.overrun && a < |s.agents| && s.agents[a].pc.Inside? {
      SameAgentsInside(s, a, s.agents[a].pc.job);
    }
  }

  lemma SameAgentsInside(s: State, a: nat, job: Job)
    requires a < |s.agents|
    ensures Locked(s, a, job).agents == s.agents[a := Locked(s, a, job).agents[a]]
  {
  }

  function Run(s: State, trace: seq<(nat, Choice)>): State
    decreases |trace|
  {
    if trace == [] then s else Run(Next(s, trace[0].0, trace[0].1), trace[1..])
  }

  /** A pool that has just been constructed. Handlers start with interrupts disabled, threads
      with interrupts enabled. */
  ghost predicate Init(s: State) {
    && s.groups == [[], [], [], []] && s.reclaim == []
    && s.lock == Open && s.gate == Open && s.level == 0
    && (forall a :: 0 <= a < |s.agents| ==> s.agents[a].pc == Idle && s.agents[a].saved == [])
    && s.clients == {} && s.made == [] && s.freed == []
    && s.panic == NoPanic && !s.overrun
  }

  // -- The invariant --

  ghost predicate PastGate(job: Job) {
    job == Drain(true) || job.Fill? || job.Put?
  }

  /** The agent is in Maintain, beyond the fLevel test. */
  ghost predicate Refilling(pc: PC) {
    match pc
    case Idle => false
    case Disabling(job) => PastGate(job)
    case Spinning(job) => PastGate(job)
    case Inside(job) => PastGate(job)
    case Enabling(e) => e.Fetch? || PastGate(e.next)
    case Outside(e) => e.Fetch? || PastGate(e.next)
    case Restoring => false
  }

  ghost predicate HasRoom(gs: seq<Slots>, i: nat) {
    i < |gs| && |gs[i]| < GROUP_MAX
  }

  ghost predicate JobOk(gs: seq<Slots>, job: Job) {
    match job
    case Put(i, p) => HasRoom(gs, i) && (p.At? ==> p.block.size == Capacity(i))
    case Fill(i) => i <= |gs|
    case Empty(i) => i <= |gs|
    case _ => true
  }

  ghost predicate ErrandOk(gs: seq<Slots>, e: Errand) {
    match e
    case Release(_, next) => next.Drain? || (next.Empty? && next.i <= |gs|)
    case Fetch(i) => HasRoom(gs, i)
  }

  /** Served from a context whose interrupts were disabled by its caller. */
  ghost predicate Nested(job: Job) {
    job.ServeAlloc? || job.ServeFree?
  }

  ghost predicate AgentOk(gs: seq<Slots>, g: Agent) {
    && (forall k :: 1 <= k < |g.saved| ==> !g.saved[k])
    && match g.pc
       case Idle => g.saved != [] ==> !g.irq
       case Disabling(job) => g.irq && g.saved == [] && !Nested(job) && JobOk(gs, job)
       case Spinning(job) => !g.irq && (Nested(job) || g.saved == []) && JobOk(gs, job)
       case Inside(job) => !g.irq && (Nested(job) || g.saved == []) && JobOk(gs, job)
       case Enabling(e) => !g.irq && g.saved == [] && ErrandOk(gs, e)
       case Outside(e) => g.irq && g.saved == [] && ErrandOk(gs, e)
       case Restoring => !g.irq && g.saved == []
  }

  ghost predicate Bounds(s: State) {
    && |s.groups| == GROUP_COUNT
    && (forall i :: 0 <= i < |s.groups| ==> |s.groups[i]| <= GROUP_MAX)
    && |s.reclaim| <= RECLAIM_MAX
    && WellSized(s.groups)
    && !s.overrun && s.panic != Overflowed
  }

  ghost predicate LockOk(s: State) {
    && (forall a :: 0 <= a < |s.agents| ==> (s.agents[a].pc.Inside? <==> s.lock == Held(a)))
    && (s.lock.Held? ==> s.lock.owner < |s.agents|)
  }

  ghost predicate GateOk(s: State) {
    && (forall a :: 0 <= a < |s.agents| ==> (Refilling(s.agents[a].pc) <==> s.gate == Held(a)))
    && (s.gate.Held? ==> s.gate.owner < |s.agents|)
    && s.level == (if s.gate.Held? then 1 else 0)
  }

  ghost predicate AgentsOk(s: State) {
    forall a :: 0 <= a < |s.agents| ==> AgentOk(s.groups, s.agents[a])
  }

  ghost predicate Inv(s: State) {
    Bounds(s) && LockOk(s) && GateOk(s) && AgentsOk(s)
  }

  // -- Every step keeps it --

  lemma InitHolds(s: State)
    requires Init(s)
    ensures Inv(s)
  {
  }

  /** x is passed from a to a, from a to nobody or from nobody to a, or is not touched. */
  ghost predicate Handed(x: Lock, x': Lock, a: nat) {
    x' == x || ((x == Open || x == Held(a)) && (x' == Open || x' == Held(a)))
  }

  /** Only agent a moved from s to s', and what it did to lock, gate and groups is in order. */
  ghost predicate Moved(s: State, s': State, a: nat) {
    && a < |s.agents| == |s'.agents|
    && s'.agents == s.agents[a := s'.agents[a]]
    && |s'.groups| == |s.groups|
    && (Refilling(s.agents[a].pc) || forall i :: 0 <= i < |s.groups| ==> |s'.groups[i]| <= |s.groups[i]|)
    && AgentOk(s'.groups, s'.agents[a])
    && (s'.agents[a].pc.Inside? <==> s'.lock == Held(a))
    && Handed(s.lock, s'.lock, a)
    && (Refilling(s'.agents[a].pc) <==> s'.gate == Held(a))
    && Handed(s.gate, s'.gate, a)
    && s'.level == (if s'.gate.Held? then 1 else 0)
  }

  /** The room a pending store counts on belongs to the only agent that stores; everybody else
      only makes more room. */
  lemma MovedKeepsInv(s: State, s': State, a: nat)
    requires Inv(s) && Moved(s, s', a) && Bounds(s')
    ensures Inv(s')
  {
    forall b | 0 <= b < |s.agents| && b != a ensures AgentOk(s'.groups, s.agents[b]) {
      assert AgentOk(s.groups, s.agents[b]);
      if Refilling(s.agents[a].pc) {
        assert !Refilling(s.agents[b].pc);
      }
    }
  }

  lemma FreeMemKeepsInv(s: State, a: nat, p: Ptr)
    requires Inv(s) && a < |s.agents| && s.agents[a].pc == Idle
    ensures Inv(Call(s, a, FreeMem(p)))
  {
    assert AgentOk(s.groups, s.agents[a]);
    if p.Null? || p.block in s.clients {
      MovedKeepsInv(s, Call(s, a, FreeMem(p)), a);
    }
  }

  lemma AllocMemKeepsInv(s: State, a: nat, size: nat, ok: bool)
    requires Inv(s) && a < |s.agents| && s.agents[a].pc == Idle
    ensures Inv(Call(s, a, AllocMem(size, ok)))
  {
    assert AgentOk(s.groups, s.agents[a]);
    MovedKeepsInv(s, Call(s, a, AllocMem(size, ok)), a);
  }

  lemma OsLockKeepsInv(s: State, a: nat, c: Choice)
    requires Inv(s) && a < |s.agents| && s.agents[a].pc == Idle && (c.AcquireOs? || c.ReleaseOs?)
    ensures Inv(Call(s, a, c))
  {
    assert AgentOk(s.groups, s.agents[a]);
    MovedKeepsInv(s, Call(s, a, c), a);
  }

  lemma CallKeepsInv(s: State, a: nat, c: Choice)
    requires Inv(s) && a < |s.agents| && s.agents[a].pc == Idle
    ensures Inv(Call(s, a, c))
  {
    match c
    case FreeMem(p) => FreeMemKeepsInv(s, a, p);
    case AllocMem(size, ok) => AllocMemKeepsInv(s, a, size, ok);
    case AcquireOs => OsLockKeepsInv(s, a, c);
    case ReleaseOs => OsLockKeepsInv(s, a, c);
    case _ =>
      assert AgentOk(s.groups, s.agents[a]);
      MovedKeepsInv(s, Call(s, a, c), a);
  }

  lemma ReleaseKeepsInv(s: State, a: nat, p: Ptr, next: Job, c: Choice)
    requires Inv(s) && a < |s.agents| && s.agents[a].pc == Outside(Release(p, next))
    ensures Inv(Unlocked(s, a, Release(p, next), c))
  {
    assert AgentOk(s.groups, s.agents[a]);
    MovedKeepsInv(s, Unlocked(s, a, Release(p, next), c), a);
  }

  lemma FetchKeepsInv(s: State, a: nat, i: nat, c: Choice)
    requires Inv(s) && a < |s.agents| && s.agents[a].pc == Outside(Fetch(i))
    ensures Inv(Unlocked(s, a, Fetch(i), c))
  {
    assert AgentOk(s.groups, s.agents[a]);
    var p := if c.Proceed? && c.ok then At(Block(|s.made|, Capacity(i))) else Null;
    MovedKeepsInv(s, Goto(s, a, Disabling(Put(i, p))).(made := Unlocked(s, a, Fetch(i), c).made), a);
  }

  lemma UnlockedKeepsInv(s: State, a: nat, e: Errand, c: Choice)
    requires Inv(s) && a < |s.agents| && s.agents[a].pc == Outside(e)
    ensures Inv(Unlocked(s, a, e, c))
  {
    match e
    case Release(p, next) => ReleaseKeepsInv(s, a, p, next, c);
    case Fetch(i) => FetchKeepsInv(s, a, i, c);
  }

  lemma AllocKeepsInv(s: State, a: nat, size: nat)
    requires Inv(s) && a < |s.agents| && s.agents[a].pc == Inside(ServeAlloc(size))
    ensures Inv(Locked(s, a, ServeAlloc(size)))
  {
    assert AgentOk(s.groups, s.agents[a]);
    if size <= HALF_LIMIT {
      AllocKeepsBounds(s.groups, size);
      var (gs, p) := AllocFrom(s.groups, ClassOf(size));
      if p.Null? {
        MovedKeepsInv(s, s.(groups := gs, panic := Underflow), a);
      } else {
        MovedKeepsInv(s, Unlock(s.(groups := gs, clients := s.clients + {p.block}), a, Idle), a);
      }
    }
  }

  lemma AllocKeepsBounds(gs: seq<Slots>, size: nat)
    requires WellSized(gs)
    ensures var gs' := AllocFrom(gs, ClassOf(size)).0;
            WellSized(gs') && |gs'| == |gs| && forall i :: 0 <= i < |gs| ==> |gs'[i]| <= |gs[i]|
  {
    AllocIsLargeEnough(gs, size);
    var n := ClassOf(size);
    if n <= |gs| {
      AllocFromEffect(gs, n);
    }
  }

  lemma FreeKeepsInv(s: State, a: nat, p: Ptr)
    requires Inv(s) && a < |s.agents| && s.agents[a].pc == Inside(ServeFree(p))
    ensures Inv(Locked(s, a, ServeFree(p)))
  {
    assert AgentOk(s.groups, s.agents[a]);
    MovedKeepsInv(s, Locked(s, a, ServeFree(p)), a);
  }

  lemma GateKeepsInv(s: State, a: nat)
    requires Inv(s) && a < |s.agents| && s.agents[a].pc == Inside(Gate)
    ensures Inv(Locked(s, a, Gate))
  {
    assert AgentOk(s.groups, s.agents[a]);
    MovedKeepsInv(s, Locked(s, a, Gate), a);
  }

  lemma DrainKeepsInv(s: State, a: nat, maintaining: bool)
    requires Inv(s) && a < |s.agents| && s.agents[a].pc == Inside(Drain(maintaining))
    ensures Inv(Locked(s, a, Drain(maintaining)))
  {
    assert AgentOk(s.groups, s.agents[a]);
    MovedKeepsInv(s, Locked(s, a, Drain(maintaining)), a);
  }

  lemma FillKeepsInv(s: State, a: nat, i: nat)
    requires Inv(s) && a < |s.agents| && s.agents[a].pc == Inside(Fill(i))
    ensures Inv(Locked(s, a, Fill(i)))
  {
    assert AgentOk(s.groups, s.agents[a]);
    MovedKeepsInv(s, Locked(s, a, Fill(i)), a);
  }

  lemma PutKeepsInv(s: State, a: nat, i: nat, p: Ptr)
    requires Inv(s) && a < |s.agents| && s.agents[a].pc == Inside(Put(i, p))
    ensures Inv(Locked(s, a, Put(i, p))) && !Locked(s, a, Put(i, p)).overrun
  {
    assert AgentOk(s.groups, s.agents[a]);
    MovedKeepsInv(s, Locked(s, a, Put(i, p)), a);
  }

  lemma PopKeepsSizes(gs: seq<Slots>, i: nat)
    requires WellSized(gs) && i < |gs| && gs[i] != []
    ensures WellSized(gs[i := Front(gs[i])])
  {
  }

  lemma PopKeepsInv(s: State, a: nat, i: nat)
    requires Inv(s) && a < |s.agents| && s.agents[a].pc == Inside(Empty(i)) && i < |s.groups| && s.groups[i] != []
    ensures Inv(Locked(s, a, Empty(i)))
  {
    assert AgentOk(s.groups, s.agents[a]);
    PopKeepsSizes(s.groups, i);
    var e := Release(Last(s.groups[i]), Empty(i));
    MovedKeepsInv(s, Unlock(s.(groups := s.groups[i := Front(s.groups[i])]), a, Enabling(e)), a);
  }

  lemma EmptyKeepsInv(s: State, a: nat, i: nat)
    requires Inv(s) && a < |s.agents| && s.agents[a].pc == Inside(Empty(i))
    ensures Inv(Locked(s, a, Empty(i)))
  {
    assert AgentOk(s.groups, s.agents[a]);
    if i >= |s.groups| {
      MovedKeepsInv(s, Unlock(s, a, Restoring), a);
    } else if s.groups[i] == [] {
      MovedKeepsInv(s, Goto(s, a, Inside(Empty(i + 1))), a);
    } else {
      PopKeepsInv(s, a, i);
    }
  }

  lemma LockedKeepsInv(s: State, a: nat, job: Job)
    requires Inv(s) && a < |s.agents| && s.agents[a].pc == Inside(job)
    ensures Inv(Locked(s, a, job))
  {
    match job
    case ServeAlloc(size) => AllocKeepsInv(s, a, size);
    case ServeFree(p) => FreeKeepsInv(s, a, p);
    case Gate => GateKeepsInv(s, a);
    case Drain(maintaining) => DrainKeepsInv(s, a, maintaining);
    case Fill(i) => FillKeepsInv(s, a, i);
    case Put(i, p) => PutKeepsInv(s, a, i, p);
    case Empty(i) => EmptyKeepsInv(s, a, i);
  }

  /** The steps to the lock and away from it: interrupts off, lock taken; interrupts on again. */
  lemma ApproachKeepsInv(s: State, a: nat, c: Choice)
    requires Inv(s) && a < |s.agents| && (s.agents[a].pc.Disabling? || s.agents[a].pc.Spinning?)
    ensures Inv(Next(s, a, c))
  {
    assert AgentOk(s.groups, s.agents[a]);
    if s.panic == NoPanic && (s.agents[a].pc.Disabling? || s.lock == Open) {
      MovedKeepsInv(s, Next(s, a, c), a);
    }
  }

  lemma DepartureKeepsInv(s: State, a: nat, c: Choice)
    requires Inv(s) && a < |s.agents| && (s.agents[a].pc.Enabling? || s.agents[a].pc.Restoring?)
    ensures Inv(Next(s, a, c))
  {
    assert AgentOk(s.groups, s.agents[a]);
    if s.panic == NoPanic {
      MovedKeepsInv(s, Next(s, a, c), a);
    }
  }

  lemma NextKeepsInv(s: State, a: nat, c: Choice)
    requires Inv(s)
    ensures Inv(Next(s, a, c))
  {
    if s.panic == NoPanic && !s.overrun && a < |s.agents| {
      match s.agents[a].pc
      case Idle => CallKeepsInv(s, a, c);
      case Inside(job) => LockedKeepsInv(s, a, job);
      case Outside(e) => UnlockedKeepsInv(s, a, e, c);
      case Disabling(job) => ApproachKeepsInv(s, a, c);
      case Spinning(job) => ApproachKeepsInv(s, a, c);
      case Enabling(e) => DepartureKeepsInv(s, a, c);
      case Restoring => DepartureKeepsInv(s, a, c);
    }
  }

  lemma {:induction false} RunKeepsInv(s: State, trace: seq<(nat, Choice)>)
    requires Inv(s)
    ensures Inv(Run(s, trace))
    decreases |trace|
  {
    if trace != [] {
      NextKeepsInv(s, trace[0].0, trace[0].1);
      RunKeepsInv(Next(s, trace[0].0, trace[0].1), trace[1..]);
    }
  }
}
