/** Where every heap block is, over every run of PoolSteps: each is in exactly one place, one that
    was given to Free is on a one-way road back to the heap. */
module PoolConservation {
  import opened SizeClasses
  import opened PoolValues
  import opened PoolSteps

  function One(p: Ptr, b: Block): nat {
    if p == At(b) then 1 else 0
  }

  /** Occurrences of b in a stack of slots. */
  function Count(s: Slots, b: Block): nat {
    if s == [] then 0 else Count(Front(s), b) + One(Last(s), b)
  }

  function InGroups(gs: seq<Slots>, i: nat, b: Block): nat
    decreases |gs| - i
  {
    if i >= |gs| then 0 else Count(gs[i], b) + InGroups(gs, i + 1, b)
  }

  /** What an agent carries between the places of the pool. */
  function JobHand(job: Job): Ptr {
    match job
    case ServeFree(p) => p
    case Put(_, p) => p
    case _ => Null
  }

  function ErrandHand(e: Errand): Ptr {
    if e.Release? then e.p else Null
  }

  function Hand(pc: PC): Ptr {
    match pc
    case Disabling(job) => JobHand(job)
    case Spinning(job) => JobHand(job)
    case Inside(job) => JobHand(job)
    case Enabling(e) => ErrandHand(e)
    case Outside(e) => ErrandHand(e)
    case _ => Null
  }

  function InHands(agents: seq<Agent>, b: Block): nat {
    if agents == [] then 0 else One(Hand(agents[0].pc), b) + InHands(agents[1..], b)
  }

  function InSeq(s: seq<Block>, b: Block): nat {
    if s == [] then 0 else InSeq(s[..|s| - 1], b) + (if s[|s| - 1] == b then 1 else 0)
  }

  /** The number of places block b is in: size groups, reclaim list, some agent's hand, a client,
      back in the heap. */
  function Places(s: State, b: Block): nat {
    InGroups(s.groups, 0, b) + Count(s.reclaim, b) + InHands(s.agents, b)
      + (if b in s.clients then 1 else 0) + InSeq(s.freed, b)
  }

  ghost predicate Made(s: State, b: Block) {
    b.id < |s.made| && s.made[b.id] == b
  }

  /** Every block that exists is in exactly one place, no other block is anywhere. */
  ghost predicate Conserved(s: State) {
    && (forall b: Block :: Places(s, b) == if Made(s, b) then 1 else 0)
    && (forall k :: 0 <= k < |s.made| ==> s.made[k].id == k)
  }

  // -- Counting --

  lemma {:induction false} InGroupsUpdate(gs: seq<Slots>, k: nat, x: Slots, i: nat, b: Block)
    requires k < |gs|
    ensures InGroups(gs[k := x], i, b) + (if i <= k then Count(gs[k], b) else 0)
         == InGroups(gs, i, b) + (if i <= k then Count(x, b) else 0)
    decreases |gs| - i
  {
    if i < |gs| {
      InGroupsUpdate(gs, k, x, i + 1, b);
    }
  }

  lemma {:induction false} InHandsUpdate(agents: seq<Agent>, a: nat, g: Agent, b: Block)
    requires a < |agents|
    ensures InHands(agents[a := g], b) + One(Hand(agents[a].pc), b)
         == InHands(agents, b) + One(Hand(g.pc), b)
  {
    if a > 0 {
      assert agents[a := g][1..] == agents[1..][a - 1 := g];
      InHandsUpdate(agents[1..], a - 1, g, b);
    } else {
      assert agents[a := g][1..] == agents[1..];
    }
  }

  lemma PushCount(s: Slots, p: Ptr, b: Block)
    ensures Count(s + [p], b) == Count(s, b) + One(p, b)
  {
    assert Front(s + [p]) == s;
  }

  lemma PushSeq(s: seq<Block>, x: Block, b: Block)
    ensures InSeq(s + [x], b) == InSeq(s, b) + (if x == b then 1 else 0)
  {
    assert (s + [x])[..|s|] == s;
  }

  /** An allocation takes out of the groups exactly what it returns; lost slots are empty. */
  lemma {:induction false} AllocCount(gs: seq<Slots>, i: nat, b: Block)
    ensures InGroups(AllocFrom(gs, i).0, 0, b) + One(AllocFrom(gs, i).1, b) == InGroups(gs, 0, b)
    decreases |gs| - i
  {
    if i < |gs| {
      if gs[i] == [] {
        AllocCount(gs, i + 1, b);
      } else {
        InGroupsUpdate(gs, i, Front(gs[i]), 0, b);
        if Last(gs[i]).Null? {
          AllocCount(gs[i := Front(gs[i])], i + 1, b);
        }
      }
    }
  }

  // -- One step --

  /** A step moves b between places; only calloc adds a place, for a block that did not exist. */
  ghost predicate Balanced(s: State, s': State, b: Block) {
    Places(s', b) == Places(s, b) + (if Made(s', b) && !Made(s, b) then 1 else 0)
  }

  lemma FreeMemBalanced(s: State, a: nat, p: Ptr, b: Block)
    requires a < |s.agents| && s.agents[a].pc == Idle
    ensures Balanced(s, Call(s, a, FreeMem(p)), b)
  {
    var s' := Call(s, a, FreeMem(p));
    if p.At? && p.block !in s.clients {
      assert s' == s;
    } else if !s.agents[a].irq {
      InHandsUpdate(s.agents, a, s.agents[a].(pc := Spinning(ServeFree(p))), b);
    } else {
      assert s'.agents == s.agents;
      if p.At? {
        PushSeq(s.freed, p.block, b);
      }
    }
  }

  lemma AllocMemBalanced(s: State, a: nat, size: nat, ok: bool, b: Block)
    requires Conserved(s) && a < |s.agents| && s.agents[a].pc == Idle
    ensures Balanced(s, Call(s, a, AllocMem(size, ok)), b)
  {
    if !s.agents[a].irq {
      QuietBalanced(s, Call(s, a, AllocMem(size, ok)), a, b);
    } else if ok {
      assert Places(s, Block(|s.made|, size)) == 0;
    }
  }

  lemma CallBalanced(s: State, a: nat, c: Choice, b: Block)
    requires Conserved(s) && a < |s.agents| && s.agents[a].pc == Idle
    ensures Balanced(s, Call(s, a, c), b)
  {
    match c
    case FreeMem(p) => FreeMemBalanced(s, a, p, b);
    case AllocMem(size, ok) => AllocMemBalanced(s, a, size, ok, b);
    case _ => QuietBalanced(s, Call(s, a, c), a, b);
  }

  lemma FetchBalanced(s: State, a: nat, i: nat, c: Choice, b: Block)
    requires Conserved(s) && a < |s.agents| && s.agents[a].pc == Outside(Fetch(i))
    ensures Balanced(s, Unlocked(s, a, Fetch(i), c), b)
  {
    var made := Block(|s.made|, Capacity(i));
    if c.Proceed? && c.ok {
      InHandsUpdate(s.agents, a, s.agents[a].(pc := Disabling(Put(i, At(made)))), b);
      assert Places(s, made) == 0;
    } else {
      QuietBalanced(s, Unlocked(s, a, Fetch(i), c), a, b);
    }
  }

  lemma ReleaseBalanced(s: State, a: nat, e: Errand, c: Choice, b: Block)
    requires Inv(s) && e.Release? && a < |s.agents| && s.agents[a].pc == Outside(e)
    ensures Balanced(s, Unlocked(s, a, e, c), b)
  {
    assert AgentOk(s.groups, s.agents[a]);
    InHandsUpdate(s.agents, a, s.agents[a].(pc := Disabling(e.next)), b);
    if e.p.At? {
      PushSeq(s.freed, e.p.block, b);
    }
  }

  lemma AllocBalanced(s: State, a: nat, size: nat, b: Block)
    requires Inv(s) && Conserved(s) && a < |s.agents| && s.agents[a].pc == Inside(ServeAlloc(size))
    ensures Balanced(s, Locked(s, a, ServeAlloc(size)), b)
  {
    var s' := Locked(s, a, ServeAlloc(size));
    InHandsUpdate(s.agents, a, s'.agents[a], b);
    assert s.agents[a := s.agents[a]] == s.agents;
    AllocCount(s.groups, ClassOf(size), b);
    if size <= HALF_LIMIT {
      var p := AllocFrom(s.groups, ClassOf(size)).1;
      if p.At? {
        // a block taken from the pool is not with a client already
        AllocCount(s.groups, ClassOf(size), p.block);
        assert Places(s, p.block) <= 1;
      }
    }
  }

  lemma FreeBalanced(s: State, a: nat, p: Ptr, b: Block)
    requires a < |s.agents| && s.agents[a].pc == Inside(ServeFree(p))
    ensures Balanced(s, Locked(s, a, ServeFree(p)), b)
  {
    if |s.reclaim| < RECLAIM_MAX {
      InHandsUpdate(s.agents, a, s.agents[a].(pc := Idle), b);
      PushCount(s.reclaim, p, b);
    }
  }

  lemma DrainOneBalanced(s: State, a: nat, maintaining: bool, b: Block)
    requires a < |s.agents| && s.agents[a].pc == Inside(Drain(maintaining))
    requires 0 < |s.reclaim| <= RECLAIM_MAX
    ensures Balanced(s, Locked(s, a, Drain(maintaining)), b)
  {
    var e := Release(Last(s.reclaim), Drain(maintaining));
    InHandsUpdate(s.agents, a, s.agents[a].(pc := Enabling(e)), b);
  }

  lemma DrainBalanced(s: State, a: nat, maintaining: bool, b: Block)
    requires a < |s.agents| && s.agents[a].pc == Inside(Drain(maintaining))
    ensures Balanced(s, Locked(s, a, Drain(maintaining)), b)
  {
    if s.reclaim == [] {
      QuietBalanced(s, Locked(s, a, Drain(maintaining)), a, b);
    } else if |s.reclaim| <= RECLAIM_MAX {
      DrainOneBalanced(s, a, maintaining, b);
    }
  }

  lemma PutBalanced(s: State, a: nat, i: nat, p: Ptr, b: Block)
    requires Inv(s) && a < |s.agents| && s.agents[a].pc == Inside(Put(i, p))
    ensures Balanced(s, Locked(s, a, Put(i, p)), b)
  {
    assert AgentOk(s.groups, s.agents[a]);
    InHandsUpdate(s.agents, a, s.agents[a].(pc := Inside(Fill(i))), b);
    PushCount(s.groups[i], p, b);
    InGroupsUpdate(s.groups, i, s.groups[i] + [p], 0, b);
  }

  lemma EmptyBalanced(s: State, a: nat, i: nat, b: Block)
    requires Inv(s) && a < |s.agents| && s.agents[a].pc == Inside(Empty(i))
    ensures Balanced(s, Locked(s, a, Empty(i)), b)
  {
    if i >= |s.groups| || s.groups[i] == [] {
      QuietBalanced(s, Locked(s, a, Empty(i)), a, b);
    } else {
      var e := Release(Last(s.groups[i]), Empty(i));
      InHandsUpdate(s.agents, a, s.agents[a].(pc := Enabling(e)), b);
      InGroupsUpdate(s.groups, i, Front(s.groups[i]), 0, b);
    }
  }

  /** The steps that touch nothing but program counters, flags, lock and level. */
  lemma QuietBalanced(s: State, s': State, a: nat, b: Block)
    requires a < |s.agents| == |s'.agents| && s'.agents == s.agents[a := s'.agents[a]]
    requires Hand(s.agents[a].pc) == Hand(s'.agents[a].pc)
    requires s' == s.(agents := s'.agents, lock := s'.lock, level := s'.level, gate := s'.gate)
    ensures Balanced(s, s', b)
  {
    InHandsUpdate(s.agents, a, s'.agents[a], b);
  }

  lemma LockedBalanced(s: State, a: nat, job: Job, b: Block)
    requires Inv(s) && Conserved(s) && a < |s.agents| && s.agents[a].pc == Inside(job)
    ensures Balanced(s, Locked(s, a, job), b)
  {
    match job
    case ServeAlloc(size) => AllocBalanced(s, a, size, b);
    case ServeFree(p) => FreeBalanced(s, a, p, b);
    case Drain(maintaining) => DrainBalanced(s, a, maintaining, b);
    case Put(i, p) => PutBalanced(s, a, i, p, b);
    case Empty(i) => EmptyBalanced(s, a, i, b);
    case _ => QuietBalanced(s, Locked(s, a, job), a, b);
  }

  lemma NextBalanced(s: State, a: nat, c: Choice, b: Block)
    requires Inv(s) && Conserved(s)
    ensures Balanced(s, Next(s, a, c), b)
  {
    if s.panic == NoPanic && !s.overrun && a < |s.agents| {
      match s.agents[a].pc
      case Idle => CallBalanced(s, a, c, b);
      case Inside(job) => LockedBalanced(s, a, job, b);
      case Outside(e) =>
        if e.Fetch? { FetchBalanced(s, a, e.i, c, b); } else { ReleaseBalanced(s, a, e, c, b); }
      case _ => QuietBalanced(s, Next(s, a, c), a, b);
    }
  }

  /** Blocks stay made, and calloc numbers them in order. */
  lemma NextMade(s: State, a: nat, c: Choice)
    ensures s.made <= Next(s, a, c).made
    ensures |Next(s, a, c).made| <= |s.made| + 1
    ensures |Next(s, a, c).made| > |s.made| ==> Next(s, a, c).made[|s.made|].id == |s.made|
  {
  }

  lemma NextNumbers(s: State, a: nat, c: Choice)
    requires forall k :: 0 <= k < |s.made| ==> s.made[k].id == k
    ensures forall k :: 0 <= k < |Next(s, a, c).made| ==> Next(s, a, c).made[k].id == k
  {
    NextMade(s, a, c);
  }

  lemma NextPlaces(s: State, a: nat, c: Choice, b: Block)
    requires Inv(s) && Conserved(s)
    ensures var s' := Next(s, a, c); Places(s', b) == if Made(s', b) then 1 else 0
  {
    NextMade(s, a, c);
    NextBalanced(s, a, c, b);
    assert Places(s, b) == if Made(s, b) then 1 else 0;
  }

  lemma NextConserves(s: State, a: nat, c: Choice)
    requires Inv(s) && Conserved(s)
    ensures Conserved(Next(s, a, c))
  {
    var s' := Next(s, a, c);
    NextNumbers(s, a, c);
    forall b: Block ensures Places(s', b) == if Made(s', b) then 1 else 0 {
      NextPlaces(s, a, c, b);
    }
  }

  lemma InitConserved(s: State)
    requires Init(s)
    ensures Conserved(s)
  {
    forall b: Block ensures Places(s, b) == 0 {
      NoHands(s.agents, b);
      assert InGroups(s.groups, 4, b) == 0;
      assert InGroups(s.groups, 3, b) == 0;
      assert InGroups(s.groups, 2, b) == 0;
      assert InGroups(s.groups, 1, b) == 0;
    }
  }

  lemma {:induction false} NoHands(agents: seq<Agent>, b: Block)
    requires forall a :: 0 <= a < |agents| ==> agents[a].pc == Idle
    ensures InHands(agents, b) == 0
  {
    if agents != [] {
      NoHands(agents[1..], b);
    }
  }

  // -- Whole runs --

  lemma {:induction false} RunConserves(s: State, trace: seq<(nat, Choice)>)
    requires Inv(s) && Conserved(s)
    ensures Inv(Run(s, trace)) && Conserved(Run(s, trace))
    decreases |trace|
  {
    if trace != [] {
      NextKeepsInv(s, trace[0].0, trace[0].1);
      NextConserves(s, trace[0].0, trace[0].1);
      RunConserves(Next(s, trace[0].0, trace[0].1), trace[1..]);
    }
  }

  /** The conservation theorem: in every interleaving every block ever allocated is in exactly one
      of the size groups, the reclaim list, an agent's hand, a client, the heap. */
  lemma EveryBlockInOnePlace(s: State, trace: seq<(nat, Choice)>, b: Block)
    requires Init(s)
    ensures var s' := Run(s, trace);
            Places(s', b) == if Made(s', b) then 1 else 0
  {
    InitHolds(s);
    InitConserved(s);
    RunConserves(s, trace);
  }

  // -- No way back --

  /** Given to Free and not yet, or no longer, anywhere else. */
  ghost predicate Doomed(s: State, b: Block) {
    Count(s.reclaim, b) + InSeq(s.freed, b) + InHandsToHeap(s.agents, b) > 0
  }

  function HandToHeap(pc: PC): Ptr {
    match pc
    case Spinning(job) => if job.ServeFree? then job.p else Null
    case Inside(job) => if job.ServeFree? then job.p else Null
    case Enabling(e) => ErrandHand(e)
    case Outside(e) => ErrandHand(e)
    case _ => Null
  }

  function InHandsToHeap(agents: seq<Agent>, b: Block): nat {
    if agents == [] then 0 else One(HandToHeap(agents[0].pc), b) + InHandsToHeap(agents[1..], b)
  }

  lemma {:induction false} ToHeapUpdate(agents: seq<Agent>, a: nat, g: Agent, b: Block)
    requires a < |agents|
    ensures InHandsToHeap(agents[a := g], b) + One(HandToHeap(agents[a].pc), b)
         == InHandsToHeap(agents, b) + One(HandToHeap(g.pc), b)
  {
    if a > 0 {
      assert agents[a := g][1..] == agents[1..][a - 1 := g];
      ToHeapUpdate(agents[1..], a - 1, g, b);
    } else {
      assert agents[a := g][1..] == agents[1..];
    }
  }

  lemma {:induction false} ToHeapIsInHand(agents: seq<Agent>, b: Block)
    ensures InHandsToHeap(agents, b) <= InHands(agents, b)
  {
    if agents != [] {
      ToHeapIsInHand(agents[1..], b);
    }
  }

  lemma CallKeepsDoomed(s: State, a: nat, c: Choice, b: Block)
    requires a < |s.agents| && s.agents[a].pc == Idle && Doomed(s, b)
    ensures Doomed(Call(s, a, c), b)
  {
    ToHeapUpdate(s.agents, a, Call(s, a, c).agents[a], b);
    assert s.agents[a := s.agents[a]] == s.agents;
    if c.FreeMem? && c.p.At? {
      PushSeq(s.freed, c.p.block, b);
    }
  }

  lemma ServeFreeKeepsDoomed(s: State, a: nat, p: Ptr, b: Block)
    requires a < |s.agents| && s.agents[a].pc == Inside(ServeFree(p)) && Doomed(s, b)
    ensures Doomed(Locked(s, a, ServeFree(p)), b)
  {
    if |s.reclaim| < RECLAIM_MAX {
      ToHeapUpdate(s.agents, a, s.agents[a].(pc := Idle), b);
      PushCount(s.reclaim, p, b);
    }
  }

  lemma DrainKeepsDoomed(s: State, a: nat, maintaining: bool, b: Block)
    requires a < |s.agents| && s.agents[a].pc == Inside(Drain(maintaining)) && Doomed(s, b)
    ensures Doomed(Locked(s, a, Drain(maintaining)), b)
  {
    if s.reclaim == [] {
      QuietKeepsDoomed(s, Locked(s, a, Drain(maintaining)), a, b);
    } else if |s.reclaim| <= RECLAIM_MAX {
      var e := Release(Last(s.reclaim), Drain(maintaining));
      ToHeapUpdate(s.agents, a, s.agents[a].(pc := Enabling(e)), b);
    }
  }

  lemma QuietKeepsDoomed(s: State, s': State, a: nat, b: Block)
    requires a < |s.agents| == |s'.agents| && s'.agents == s.agents[a := s'.agents[a]]
    requires HandToHeap(s.agents[a].pc) == Null || HandToHeap(s'.agents[a].pc) == HandToHeap(s.agents[a].pc)
    requires s'.reclaim == s.reclaim && s'.freed == s.freed
    requires Doomed(s, b)
    ensures Doomed(s', b)
  {
    ToHeapUpdate(s.agents, a, s'.agents[a], b);
  }

  lemma AllocKeepsDoomed(s: State, a: nat, size: nat, b: Block)
    requires a < |s.agents| && s.agents[a].pc == Inside(ServeAlloc(size)) && Doomed(s, b)
    ensures Doomed(Locked(s, a, ServeAlloc(size)), b)
  {
    QuietKeepsDoomed(s, Locked(s, a, ServeAlloc(size)), a, b);
  }

  lemma EmptyKeepsDoomed(s: State, a: nat, i: nat, b: Block)
    requires a < |s.agents| && s.agents[a].pc == Inside(Empty(i)) && Doomed(s, b)
    ensures Doomed(Locked(s, a, Empty(i)), b)
  {
    if i < |s.groups| && 0 < |s.groups[i]| <= GROUP_MAX {
      var e := Release(Last(s.groups[i]), Empty(i));
      ToHeapUpdate(s.agents, a, s.agents[a].(pc := Enabling(e)), b);
    } else {
      QuietKeepsDoomed(s, Locked(s, a, Empty(i)), a, b);
    }
  }

  lemma LockedKeepsDoomed(s: State, a: nat, job: Job, b: Block)
    requires a < |s.agents| && s.agents[a].pc == Inside(job) && Doomed(s, b)
    ensures Doomed(Locked(s, a, job), b)
  {
    match job
    case ServeAlloc(size) => AllocKeepsDoomed(s, a, size, b);
    case ServeFree(p) => ServeFreeKeepsDoomed(s, a, p, b);
    case Drain(maintaining) => DrainKeepsDoomed(s, a, maintaining, b);
    case Empty(i) => EmptyKeepsDoomed(s, a, i, b);
    case _ => QuietKeepsDoomed(s, Locked(s, a, job), a, b);
  }

  lemma UnlockedKeepsDoomed(s: State, a: nat, e: Errand, c: Choice, b: Block)
    requires a < |s.agents| && s.agents[a].pc == Outside(e) && Doomed(s, b)
    ensures Doomed(Unlocked(s, a, e, c), b)
  {
    match e
    case Release(p, next) =>
      ToHeapUpdate(s.agents, a, s.agents[a].(pc := Disabling(next)), b);
      if p.At? {
        PushSeq(s.freed, p.block, b);
      }
    case Fetch(i) => QuietKeepsDoomed(s, Unlocked(s, a, e, c), a, b);
  }

  lemma SpinningKeepsDoomed(s: State, a: nat, c: Choice, b: Block)
    requires a < |s.agents| && s.agents[a].pc.Spinning? && Doomed(s, b)
    ensures Doomed(Next(s, a, c), b)
  {
    if s.panic == NoPanic && !s.overrun && !s.lock.Held? {
      QuietKeepsDoomed(s, Next(s, a, c), a, b);
    }
  }

  lemma NextKeepsDoomed(s: State, a: nat, c: Choice, b: Block)
    requires Inv(s) && Doomed(s, b)
    ensures Doomed(Next(s, a, c), b)
  {
    if s.panic == NoPanic && !s.overrun && a < |s.agents| {
      match s.agents[a].pc
      case Idle => CallKeepsDoomed(s, a, c, b);
      case Inside(job) => LockedKeepsDoomed(s, a, job, b);
      case Outside(e) => UnlockedKeepsDoomed(s, a, e, c, b);
      case Spinning(job) => SpinningKeepsDoomed(s, a, c, b);
      case _ => QuietKeepsDoomed(s, Next(s, a, c), a, b);
    }
  }

  /** Once given to Free, a block is never again in a group or with a client, whatever anybody
      does, and it goes back to the heap at most once. */
  lemma {:induction false} FreedStaysFreed(s: State, trace: seq<(nat, Choice)>, b: Block)
    requires Inv(s) && Conserved(s) && Doomed(s, b)
    ensures var s' := Run(s, trace);
            && Doomed(s', b)
            && InGroups(s'.groups, 0, b) == 0 && b !in s'.clients
            && InSeq(s'.freed, b) <= 1
    decreases |trace|
  {
    if trace == [] {
      ToHeapIsInHand(s.agents, b);
      assert Places(s, b) <= 1;
    } else {
      NextKeepsInv(s, trace[0].0, trace[0].1);
      NextConserves(s, trace[0].0, trace[0].1);
      NextKeepsDoomed(s, trace[0].0, trace[0].1, b);
      FreedStaysFreed(Next(s, trace[0].0, trace[0].1), trace[1..], b);
    }
  }

  /** os_free_mem with interrupts disabled puts a block on that road. */
  lemma FreeMemDooms(s: State, a: nat, b: Block)
    requires s.panic == NoPanic && !s.overrun && a < |s.agents| && s.agents[a].pc == Idle
    requires b in s.clients
    ensures Doomed(Next(s, a, FreeMem(At(b))), b)
  {
    var s' := Next(s, a, FreeMem(At(b)));
    ToHeapUpdate(s.agents, a, s'.agents[a], b);
    PushSeq(s.freed, b, b);
  }

  /** The two together: a block that the driver hands to os_free_mem at any moment of any run is
      never handed out again and reaches the heap at most once, whatever follows. */
  lemma NeverHandedOutAgain(s: State, before: seq<(nat, Choice)>, a: nat, b: Block, after: seq<(nat, Choice)>)
    requires Init(s)
    requires var s1 := Run(s, before);
             s1.panic == NoPanic && a < |s1.agents| && s1.agents[a].pc == Idle && b in s1.clients
    ensures var s' := Run(Next(Run(s, before), a, FreeMem(At(b))), after);
            InGroups(s'.groups, 0, b) == 0 && b !in s'.clients && InSeq(s'.freed, b) <= 1
  {
    InitHolds(s);
    InitConserved(s);
    RunConserves(s, before);
    var s1 := Run(s, before);
    FreeMemDooms(s1, a, b);
    NextKeepsInv(s1, a, FreeMem(At(b)));
    NextConserves(s1, a, FreeMem(At(b)));
    FreedStaysFreed(Next(s1, a, FreeMem(At(b))), after, b);
  }
}
