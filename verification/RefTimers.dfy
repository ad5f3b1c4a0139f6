/** The reference count of an nvkms_ref_ptr shared by its owner and by timers, in every
    interleaving of their steps. Each access to the shared count or pointer is a step of its own. */
module RefTimers {

  /** nvkms_free_ref_ptr, step by step. */
  datatype OwnerPC =
    | Holding        // has not begun to release
    | Nulled         // wrote ptr = NULL, about to read it back in nvkms_dec_ref
    | ReadBack       // about to decrement
    | LastOut        // its decrement gave zero, about to free
    | Released

  /** A ref-holding nvkms_timer_t. */
  datatype TimerPC =
    | Constructed             // counted, not scheduled yet
    | Armed                   // waiting for the kernel timer
    | Queued(flag: bool)      // in the DPC queue; flag is fDpcScheduled
    | Reading                 // flag cleared, about to read the pointer
    | Dropping                // about to decrement
    | Freeing                 // its decrement gave zero, about to free
    | Dispatching             // past nvkms_dec_ref
    | Deleted
    | Stuck                   // DoDPC found the flag clear and returned

  /** delayed: scheduled with a non-zero delay. sawPtr: what its nvkms_dec_ref returned was not
      NULL. called: fProc ran. */
  datatype Timer = Timer(pc: TimerPC, delayed: bool, sawPtr: bool, called: bool)

  datatype State = State(
    count: int,
    hasPtr: bool,
    freed: nat,          // how often the ref_ptr was freed
    touched: bool,       // it was accessed after having been freed
    owner: OwnerPC,
    timers: seq<Timer>)

  datatype Choice =
    | Create                        // AllocWithRefPtr, by code that still has the owner's reference
    | OwnerStep
    | TimerStep(t: nat, zero: bool) // zero: Schedule was given no delay

  /** Any access to the ref_ptr. */
  function Touch(s: State): State {
    s.(touched := s.touched || s.freed > 0)
  }

  /** nv_kref_put up to the decision. */
  function Decrement(s: State): (State, bool) {
    (Touch(s).(count := s.count - 1), s.count == 1)
  }

  function Free(s: State): State {
    Touch(s).(freed := s.freed + 1)
  }

  function SetPC(s: State, t: nat, pc: TimerPC): State
    requires t < |s.timers|
  {
    s.(timers := s.timers[t := s.timers[t].(pc := pc)])
  }

  function OwnerNext(s: State): State {
    match s.owner
    case Holding => Touch(s).(hasPtr := false, owner := Nulled)
    case Nulled => Touch(s).(owner := ReadBack)
    case ReadBack =>
      var (s', last) := Decrement(s);
      s'.(owner := if last then LastOut else Released)
    case LastOut => Free(s).(owner := Released)
    case Released => s
  }

  function TimerNext(s: State, t: nat, zero: bool): State
    requires t < |s.timers|
  {
    var timer := s.timers[t];
    match timer.pc
    case Constructed =>
      if zero then SetPC(s, t, Queued(true))
      else s.(timers := s.timers[t := timer.(pc := Armed, delayed := true)])
    case Armed => SetPC(s, t, Queued(false))   // TimerHook
    case Queued(flag) => SetPC(s, t, if flag then Reading else Stuck)
    case Reading => Touch(s).(timers := s.timers[t := timer.(pc := Dropping, sawPtr := s.hasPtr)])
    case Dropping =>
      var (s', last) := Decrement(s);
      SetPC(s', t, if last then Freeing else Dispatching)
    case Freeing => SetPC(Free(s), t, Dispatching)
    case Dispatching => s.(timers := s.timers[t := timer.(pc := Deleted, called := timer.sawPtr)])
    case Deleted => s
    case Stuck => s
  }

  function Next(s: State, c: Choice): State {
    match c
    case Create =>
      if s.owner != Holding then s
      else Touch(s).(count := s.count + 1, timers := s.timers + [Timer(Constructed, false, false, false)])
    case OwnerStep => OwnerNext(s)
    case TimerStep(t, zero) => if t < |s.timers| then TimerNext(s, t, zero) else s
  }

  function Run(s: State, trace: seq<Choice>): State
    decreases |trace|
  {
    if trace == [] then s else Run(Next(s, trace[0]), trace[1..])
  }

  /** A timer moves by its own steps only. */
  lemma OthersStay(s: State, c: Choice, t: nat)
    requires t < |s.timers|
    ensures t < |Next(s, c).timers|
    ensures !(c.TimerStep? && c.t == t) ==> Next(s, c).timers[t] == s.timers[t]
  {
  }

  /** After nvkms_alloc_ref_ptr. */
  const INIT: State := State(1, true, 0, false, Holding, [])

  // -- The invariant --

  function OwnerHolds(pc: OwnerPC): nat {
    if pc == Holding || pc == Nulled || pc == ReadBack then 1 else 0
  }

  /** The timer has not passed the decrement. */
  function TimerHolds(timer: Timer): nat {
    match timer.pc
    case Freeing => 0
    case Dispatching => 0
    case Deleted => 0
    case _ => 1
  }

  function Holders(timers: seq<Timer>): nat {
    if timers == [] then 0 else TimerHolds(timers[0]) + Holders(timers[1..])
  }

  function Liberators(timers: seq<Timer>): nat {
    if timers == [] then 0 else (if timers[0].pc == Freeing then 1 else 0) + Liberators(timers[1..])
  }

  ghost predicate TimerOk(timer: Timer) {
    && (timer.delayed ==> timer.pc == Armed || timer.pc == Queued(false) || timer.pc == Stuck)
    && (!timer.delayed ==> timer.pc != Armed && timer.pc != Queued(false) && timer.pc != Stuck)
    && (timer.called <==> timer.pc == Deleted && timer.sawPtr)
  }

  ghost predicate Inv(s: State) {
    && s.count == OwnerHolds(s.owner) + Holders(s.timers)
    && s.freed + Liberators(s.timers) + (if s.owner == LastOut then 1 else 0) == (if s.count == 0 then 1 else 0)
    && !s.touched
    && (s.owner == Holding <==> s.hasPtr)
    && forall t :: 0 <= t < |s.timers| ==> TimerOk(s.timers[t])
  }

  lemma {:induction false} TalliesAfterUpdate(timers: seq<Timer>, t: nat, x: Timer)
    requires t < |timers|
    ensures Holders(timers[t := x]) + TimerHolds(timers[t]) == Holders(timers) + TimerHolds(x)
    ensures Liberators(timers[t := x]) + (if timers[t].pc == Freeing then 1 else 0)
         == Liberators(timers) + (if x.pc == Freeing then 1 else 0)
  {
    if t > 0 {
      assert timers[t := x][1..] == timers[1..][t - 1 := x];
      TalliesAfterUpdate(timers[1..], t - 1, x);
    } else {
      assert timers[t := x][1..] == timers[1..];
    }
  }

  lemma {:induction false} TalliesAfterAppend(timers: seq<Timer>, x: Timer)
    ensures Holders(timers + [x]) == Holders(timers) + TimerHolds(x)
    ensures Liberators(timers + [x]) == Liberators(timers) + (if x.pc == Freeing then 1 else 0)
  {
    if timers != [] {
      assert (timers + [x])[1..] == timers[1..] + [x];
      TalliesAfterAppend(timers[1..], x);
    }
  }

  lemma {:induction false} OneHolds(timers: seq<Timer>, t: nat)
    requires t < |timers|
    ensures Holders(timers) >= TimerHolds(timers[t])
    ensures timers[t].pc == Freeing ==> Liberators(timers) >= 1
  {
    if t > 0 {
      OneHolds(timers[1..], t - 1);
    }
  }

  lemma DroppingKeepsInv(s: State, t: nat, zero: bool)
    requires Inv(s) && t < |s.timers| && s.timers[t].pc == Dropping
    ensures Inv(TimerNext(s, t, zero))
  {
    var x := s.timers[t].(pc := if s.count == 1 then Freeing else Dispatching);
    OneHolds(s.timers, t);
    TalliesAfterUpdate(s.timers, t, x);
    assert TimerOk(s.timers[t]) && TimerOk(x);
  }

  lemma FreeingKeepsInv(s: State, t: nat, zero: bool)
    requires Inv(s) && t < |s.timers| && s.timers[t].pc == Freeing
    ensures Inv(TimerNext(s, t, zero))
  {
    var x := s.timers[t].(pc := Dispatching);
    OneHolds(s.timers, t);
    TalliesAfterUpdate(s.timers, t, x);
    assert TimerOk(s.timers[t]) && TimerOk(x);
  }

  /** The steps that leave the count and the object alone. */
  lemma QuietKeepsInv(s: State, t: nat, zero: bool)
    requires Inv(s) && t < |s.timers| && s.timers[t].pc != Dropping && s.timers[t].pc != Freeing
    ensures Inv(TimerNext(s, t, zero))
  {
    var s' := TimerNext(s, t, zero);
    var x := s'.timers[t];
    OneHolds(s.timers, t);
    TalliesAfterUpdate(s.timers, t, x);
    QuietKeepsTimerOk(s, t, zero);
    assert s'.timers == s.timers[t := x];
  }

  lemma QuietKeepsTimerOk(s: State, t: nat, zero: bool)
    requires t < |s.timers| && TimerOk(s.timers[t]) && s.timers[t].pc != Dropping && s.timers[t].pc != Freeing
    ensures var x := TimerNext(s, t, zero).timers[t];
            TimerOk(x) && TimerHolds(x) == TimerHolds(s.timers[t]) && x.pc != Freeing
  {
  }

  lemma TimerNextKeepsInv(s: State, t: nat, zero: bool)
    requires Inv(s) && t < |s.timers|
    ensures Inv(TimerNext(s, t, zero))
  {
    match s.timers[t].pc
    case Dropping => DroppingKeepsInv(s, t, zero);
    case Freeing => FreeingKeepsInv(s, t, zero);
    case _ => QuietKeepsInv(s, t, zero);
  }

  lemma NextKeepsInv(s: State, c: Choice)
    requires Inv(s)
    ensures Inv(Next(s, c))
  {
    match c
    case Create => TalliesAfterAppend(s.timers, Timer(Constructed, false, false, false));
    case OwnerStep =>
    case TimerStep(t, zero) =>
      if t < |s.timers| {
        TimerNextKeepsInv(s, t, zero);
      }
  }

  lemma {:induction false} RunKeepsInv(s: State, trace: seq<Choice>)
    requires Inv(s)
    ensures Inv(Run(s, trace))
    decreases |trace|
  {
    if trace != [] {
      NextKeepsInv(s, trace[0]);
      RunKeepsInv(Next(s, trace[0]), trace[1..]);
    }
  }

  // -- What it means --

  /** In every interleaving: the count is the number of holders; the ref_ptr is freed at most
      once, not while anybody holds it, and never touched afterwards. */
  lemma CountIsExact(trace: seq<Choice>)
    ensures var s := Run(INIT, trace);
            && s.count == OwnerHolds(s.owner) + Holders(s.timers)
            && s.freed <= 1 && !s.touched
            && (s.freed == 1 ==> s.count == 0)
  {
    RunKeepsInv(INIT, trace);
  }

  /** The step that brings the count to zero is followed by the free of the same agent, and by no
      other: whoever is about to free is alone in that. */
  lemma LastHolderFrees(trace: seq<Choice>, c: Choice)
    ensures var s := Run(INIT, trace);
            var s' := Next(s, c);
            && (s.count > 0 && s'.count == 0 ==>
                  && s.freed == s'.freed == 0
                  && Liberators(s'.timers) + (if s'.owner == LastOut then 1 else 0) == 1)
            && (s'.freed > s.freed ==>
                  s.count == 0 && Liberators(s'.timers) == 0 && s'.owner != LastOut)
  {
    RunKeepsInv(INIT, trace);
    NextKeepsInv(Run(INIT, trace), c);
    CountMovesByOne(Run(INIT, trace), c);
  }

  lemma CountMovesByOne(s: State, c: Choice)
    ensures Next(s, c).freed > s.freed ==> Next(s, c).count == s.count
    ensures Next(s, c).count < s.count ==> Next(s, c).freed == s.freed
  {
  }

  /** The timer has read the pointer while the owner had not cleared it. */
  ghost predicate SawPointer(s: State, t: nat) {
    t < |s.timers| && s.timers[t].sawPtr
  }

  lemma NextAfterRelease(s: State, c: Choice, t: nat)
    requires Inv(s) && s.owner != Holding && t < |s.timers| && !SawPointer(s, t) && !s.timers[t].called
    ensures var s' := Next(s, c);
            s'.owner != Holding && t < |s'.timers| && !SawPointer(s', t) && !s'.timers[t].called
  {
    OthersStay(s, c, t);
    if c.TimerStep? && c.t == t {
      StepAfterRelease(s, t, c.zero);
    }
  }

  lemma StepAfterRelease(s: State, t: nat, zero: bool)
    requires !s.hasPtr && t < |s.timers| && !s.timers[t].sawPtr && !s.timers[t].called
    ensures var x := TimerNext(s, t, zero).timers[t]; !x.sawPtr && !x.called
    ensures TimerNext(s, t, zero).owner == s.owner
  {
  }

  /** Across agents: once the owner has begun to release, a timer that has not read the pointer yet
      never calls back, whatever follows. */
  lemma {:induction false} NoCallbackAfterRelease(s: State, later: seq<Choice>, t: nat)
    requires Inv(s) && s.owner != Holding && t < |s.timers| && !SawPointer(s, t) && !s.timers[t].called
    ensures t < |Run(s, later).timers| && !Run(s, later).timers[t].called
    decreases |later|
  {
    if later != [] {
      NextKeepsInv(s, later[0]);
      NextAfterRelease(s, later[0], t);
      NoCallbackAfterRelease(Next(s, later[0]), later[1..], t);
    }
  }

  predicate PastRead(pc: TimerPC) {
    pc == Dropping || pc == Freeing || pc == Dispatching || pc == Deleted
  }

  lemma NextKeepsRead(s: State, c: Choice, t: nat)
    requires t < |s.timers| && PastRead(s.timers[t].pc)
    ensures var s' := Next(s, c);
            t < |s'.timers| && PastRead(s'.timers[t].pc) && s'.timers[t].sawPtr == s.timers[t].sawPtr
  {
    OthersStay(s, c, t);
    if c.TimerStep? && c.t == t {
      StepKeepsRead(s, t, c.zero);
    }
  }

  lemma StepKeepsRead(s: State, t: nat, zero: bool)
    requires t < |s.timers| && PastRead(s.timers[t].pc)
    ensures var x := TimerNext(s, t, zero).timers[t]; PastRead(x.pc) && x.sawPtr == s.timers[t].sawPtr
  {
  }

  lemma {:induction false} RunKeepsRead(s: State, later: seq<Choice>, t: nat)
    requires t < |s.timers| && PastRead(s.timers[t].pc)
    ensures var s' := Run(s, later);
            t < |s'.timers| && PastRead(s'.timers[t].pc) && s'.timers[t].sawPtr == s.timers[t].sawPtr
    decreases |later|
  {
    if later != [] {
      NextKeepsRead(s, later[0], t);
      RunKeepsRead(Next(s, later[0]), later[1..], t);
    }
  }

  /** Whatever happens between a timer's look at the pointer and its end: it has called back exactly
      when the owner had not begun to release at that look. */
  lemma CallbackIff(s: State, t: nat, zero: bool, later: seq<Choice>)
    requires Inv(s) && t < |s.timers| && s.timers[t].pc == Reading
    ensures var s' := Run(TimerNext(s, t, zero), later);
            t < |s'.timers| && (s'.timers[t].pc == Deleted ==> (s'.timers[t].called <==> s.owner == Holding))
  {
    TimerNextKeepsInv(s, t, zero);
    var s1 := TimerNext(s, t, zero);
    RunKeepsRead(s1, later, t);
    RunKeepsInv(s1, later);
    assert TimerOk(Run(s1, later).timers[t]);
  }

  /** Nothing is left to happen. */
  ghost predicate Quiet(s: State) {
    s.owner == Released && forall t :: 0 <= t < |s.timers| ==> s.timers[t].pc == Deleted || s.timers[t].pc == Stuck
  }

  ghost predicate AnyDelayed(s: State) {
    exists t :: 0 <= t < |s.timers| && s.timers[t].delayed
  }

  lemma {:induction false} QuietTallies(timers: seq<Timer>)
    requires forall t :: 0 <= t < |timers| ==> timers[t].pc == Deleted || timers[t].pc == Stuck
    ensures Liberators(timers) == 0
    ensures Holders(timers) == 0 <==> forall t :: 0 <= t < |timers| ==> timers[t].pc == Deleted
  {
    if timers != [] {
      QuietTallies(timers[1..]);
      assert timers == [timers[0]] + timers[1..];
    }
  }

  lemma StepKeepsDelayed(s: State, t: nat, zero: bool)
    requires t < |s.timers| && s.timers[t].delayed
    ensures TimerNext(s, t, zero).timers[t].delayed
  {
  }

  lemma NextKeepsDelayed(s: State, c: Choice)
    requires AnyDelayed(s)
    ensures AnyDelayed(Next(s, c))
  {
    var t :| 0 <= t < |s.timers| && s.timers[t].delayed;
    OthersStay(s, c, t);
    if c.TimerStep? && c.t == t {
      StepKeepsDelayed(s, t, c.zero);
    }
    assert Next(s, c).timers[t].delayed;
  }

  /** A delayed timer keeps its reference for ever: TimerHook queues it without the flag that
      DoDPC asks for. Once a timer has been delayed the ref_ptr is never freed, whatever follows... */
  lemma {:induction false} DelayedTimerPinsForEver(s: State, later: seq<Choice>)
    requires Inv(s) && AnyDelayed(s)
    ensures Run(s, later).freed == 0 && Run(s, later).count > 0
    decreases |later|
  {
    if later == [] {
      var t :| 0 <= t < |s.timers| && s.timers[t].delayed;
      assert TimerOk(s.timers[t]);
      OneHolds(s.timers, t);
    } else {
      NextKeepsInv(s, later[0]);
      NextKeepsDelayed(s, later[0]);
      DelayedTimerPinsForEver(Next(s, later[0]), later[1..]);
    }
  }

  /** The input that shows it: one timer, scheduled with a delay. Whatever follows this run, such as
      the owner's release and the expiry of the timer, the ref_ptr is not freed. */
  lemma PinnedAfterOneDelay(later: seq<Choice>)
    ensures Run(Run(INIT, OneDelayedTimer()), later).freed == 0
  {
    var s := INIT;
    DelayedAfterTwo(s);
    RunTwo(s, Create, TimerStep(0, false));
    RunKeepsInv(s, OneDelayedTimer());
    DelayedTimerPinsForEver(Run(s, OneDelayedTimer()), later);
  }

  function OneDelayedTimer(): seq<Choice> {
    [Create, TimerStep(0, false)]
  }

  lemma DelayedAfterTwo(s: State)
    requires s.owner == Holding && s.timers == []
    ensures AnyDelayed(Next(Next(s, Create), TimerStep(0, false)))
  {
    assert Next(Next(s, Create), TimerStep(0, false)).timers[0].delayed;
  }

  lemma RunTwo(s: State, c: Choice, d: Choice)
    ensures Run(s, [c, d]) == Next(Next(s, c), d)
  {
    assert [c, d][1..] == [d];
    assert Run(Next(s, c), [d]) == Run(Next(Next(s, c), d), []);
  }

  lemma QuietIsFreed(s: State)
    requires Inv(s) && Quiet(s)
    ensures s.freed == if AnyDelayed(s) then 0 else 1
  {
    QuietTallies(s.timers);
    forall t | 0 <= t < |s.timers| ensures s.timers[t].delayed <==> s.timers[t].pc == Stuck {
      assert TimerOk(s.timers[t]);
    }
  }

  /** ... and when everything has run its course, it has been freed if and only if no timer was
      ever delayed. */
  lemma FreedInTheEndIff(trace: seq<Choice>)
    requires Quiet(Run(INIT, trace))
    ensures Run(INIT, trace).freed == 1 <==> !AnyDelayed(Run(INIT, trace))
  {
    RunKeepsInv(INIT, trace);
    QuietIsFreed(Run(INIT, trace));
  }

  /** n steps of timer t and of nobody else. */
  function Alone(s: State, t: nat, n: nat): State
    decreases n
  {
    if n == 0 then s else Alone(Next(s, TimerStep(t, true)), t, n - 1)
  }

  /** Steps to its end, by way of the kernel timer or not. */
  function Remaining(pc: TimerPC): nat {
    match pc
    case Constructed => 7
    case Armed => 6
    case Queued(_) => 5
    case Reading => 4
    case Dropping => 3
    case Freeing => 2
    case Dispatching => 1
    case _ => 0
  }

  ghost predicate OnItsWay(pc: TimerPC) {
    pc != Armed && pc != Queued(false) && pc != Stuck
  }

  /** What the timer will have seen. */
  function WillSee(s: State, t: nat): bool
    requires t < |s.timers|
  {
    if PastRead(s.timers[t].pc) then s.timers[t].sawPtr else s.hasPtr
  }

  lemma StepForward(s: State, t: nat)
    requires t < |s.timers| && OnItsWay(s.timers[t].pc) && TimerOk(s.timers[t])
    ensures var s' := TimerNext(s, t, true);
            && |s'.timers| == |s.timers| && OnItsWay(s'.timers[t].pc)
            && (s.timers[t].pc == Deleted ==> s' == s)
            && (s.timers[t].pc != Deleted ==> Remaining(s'.timers[t].pc) < Remaining(s.timers[t].pc))
            && WillSee(s', t) == WillSee(s, t)
            && s'.count - TimerHolds(s'.timers[t]) == s.count - TimerHolds(s.timers[t])
  {
  }

  lemma {:induction false} AloneFinishes(s: State, t: nat, n: nat)
    requires Inv(s) && t < |s.timers| && OnItsWay(s.timers[t].pc) && n >= Remaining(s.timers[t].pc)
    ensures var s' := Alone(s, t, n);
            && |s'.timers| == |s.timers| && s'.timers[t].pc == Deleted
            && (s'.timers[t].called <==> WillSee(s, t))
            && s'.count == s.count - TimerHolds(s.timers[t])
    decreases n
  {
    assert TimerOk(s.timers[t]);
    if n > 0 {
      TimerNextKeepsInv(s, t, true);
      StepForward(s, t);
      AloneFinishes(Next(s, TimerStep(t, true)), t, n - 1);
    }
  }

  /** The zero-delay path, from Schedule on or from anywhere behind it: seven steps of its own take a
      timer to deletion, its reference is given back, and its callback runs exactly when the owner
      had not cleared the pointer. */
  lemma ZeroDelayDispatches(trace: seq<Choice>, t: nat)
    requires t < |Run(INIT, trace).timers|
    requires var pc := Run(INIT, trace).timers[t].pc; pc == Constructed || pc == Queued(true) || pc == Reading
    ensures var s := Run(INIT, trace);
            var s' := Alone(s, t, 7);
            && |s'.timers| == |s.timers| && s'.timers[t].pc == Deleted
            && (s'.timers[t].called <==> s.hasPtr)
            && s'.count == s.count - 1
  {
    RunKeepsInv(INIT, trace);
    AloneFinishes(Run(INIT, trace), t, 7);
  }

  // -- Everything runs its course --

  function OwnerRemaining(pc: OwnerPC): nat {
    match pc
    case Holding => 4
    case Nulled => 3
    case ReadBack => 2
    case LastOut => 1
    case Released => 0
  }

  function TimersRemaining(timers: seq<Timer>): nat {
    if timers == [] then 0 else Remaining(timers[0].pc) + TimersRemaining(timers[1..])
  }

  /** Steps that are left to all agents together. */
  function Left(s: State): nat {
    OwnerRemaining(s.owner) + TimersRemaining(s.timers)
  }

  lemma {:induction false} RemainingAfterUpdate(timers: seq<Timer>, t: nat, x: Timer)
    requires t < |timers|
    ensures TimersRemaining(timers[t := x]) + Remaining(timers[t].pc) == TimersRemaining(timers) + Remaining(x.pc)
  {
    if t > 0 {
      assert timers[t := x][1..] == timers[1..][t - 1 := x];
      RemainingAfterUpdate(timers[1..], t - 1, x);
    } else {
      assert timers[t := x][1..] == timers[1..];
    }
  }

  /** An agent that is not at its end can always make a step, and each step brings it nearer. */
  lemma OwnerMoves(s: State)
    requires s.owner != Released
    ensures var s' := OwnerNext(s);
            OwnerRemaining(s'.owner) < OwnerRemaining(s.owner) && s'.timers == s.timers
  {
  }

  lemma TimerMoves(s: State, t: nat, zero: bool)
    requires t < |s.timers| && s.timers[t].pc != Deleted && s.timers[t].pc != Stuck
    ensures var s' := TimerNext(s, t, zero);
            && s'.owner == s.owner && s'.timers == s.timers[t := s'.timers[t]]
            && Remaining(s'.timers[t].pc) < Remaining(s.timers[t].pc)
  {
  }

  predicate CanMove(s: State, c: Choice) {
    match c
    case Create => false
    case OwnerStep => s.owner != Released
    case TimerStep(t, _) => t < |s.timers| && s.timers[t].pc != Deleted && s.timers[t].pc != Stuck
  }

  lemma MoveLeavesLess(s: State, c: Choice)
    requires CanMove(s, c)
    ensures Left(Next(s, c)) < Left(s)
  {
    match c
    case OwnerStep => OwnerMoves(s);
    case TimerStep(t, zero) =>
      TimerMoves(s, t, zero);
      RemainingAfterUpdate(s.timers, t, TimerNext(s, t, zero).timers[t]);
  }

  /** Nothing can move exactly when everything has run its course. */
  lemma QuietIff(s: State)
    ensures Quiet(s) <==> forall c: Choice :: !CanMove(s, c)
  {
    if !Quiet(s) {
      if s.owner != Released {
        assert CanMove(s, OwnerStep);
      } else {
        var t :| 0 <= t < |s.timers| && s.timers[t].pc != Deleted && s.timers[t].pc != Stuck;
        assert CanMove(s, TimerStep(t, true));
      }
    }
  }

  /** Steps of a trace at which somebody moves. */
  function Moves(s: State, trace: seq<Choice>): nat
    decreases |trace|
  {
    if trace == [] then 0 else (if CanMove(s, trace[0]) then 1 else 0) + Moves(Next(s, trace[0]), trace[1..])
  }

  lemma StandStill(s: State, c: Choice)
    requires !CanMove(s, c) && !c.Create?
    ensures Next(s, c) == s
  {
  }

  /** No schedule keeps the agents moving for ever: from any state they make at most Left(s) moves,
      as long as no further timer is created. */
  lemma {:induction false} MovesAreBounded(s: State, trace: seq<Choice>)
    requires Create !in trace
    ensures Moves(s, trace) + Left(Run(s, trace)) <= Left(s)
    decreases |trace|
  {
    if trace != [] {
      if CanMove(s, trace[0]) {
        MoveLeavesLess(s, trace[0]);
      } else {
        StandStill(s, trace[0]);
      }
      MovesAreBounded(Next(s, trace[0]), trace[1..]);
    }
  }

  /** From every state some continuation, without any delay, ends quietly. */
  lemma {:induction false} QuietIsReached(s: State) returns (later: seq<Choice>)
    requires Inv(s)
    ensures Quiet(Run(s, later)) && |later| <= Left(s)
    ensures AnyDelayed(Run(s, later)) <==> AnyDelayed(s)
    decreases Left(s)
  {
    if forall c: Choice :: !CanMove(s, c) {
      QuietIff(s);
      later := [];
    } else {
      var c: Choice :| CanMove(s, c);
      var d := if c.TimerStep? then TimerStep(c.t, true) else c;
      MoveLeavesLess(s, d);
      NextKeepsInv(s, d);
      SameDelays(s, d);
      var rest := QuietIsReached(Next(s, d));
      later := [d] + rest;
      assert later[1..] == rest;
    }
  }

  lemma SameDelays(s: State, c: Choice)
    requires CanMove(s, c) && (c.TimerStep? ==> c.zero)
    ensures AnyDelayed(Next(s, c)) <==> AnyDelayed(s)
  {
    var s' := Next(s, c);
    assert |s'.timers| == |s.timers|;
    forall t | 0 <= t < |s.timers| ensures s'.timers[t].delayed == s.timers[t].delayed {
      OthersStay(s, c, t);
      if c.TimerStep? && c.t == t {
        SameDelay(s, t);
      }
    }
  }

  lemma SameDelay(s: State, t: nat)
    requires t < |s.timers|
    ensures TimerNext(s, t, true).timers[t].delayed == s.timers[t].delayed
  {
  }

  /** Freed exactly once: from every reachable state without a delayed timer the agents can come to
      their ends, and the ref_ptr has been freed then. MovesAreBounded and FreedInTheEndIff say the
      same of every schedule that does not stop before. */
  lemma FreedExactlyOnce(trace: seq<Choice>) returns (later: seq<Choice>)
    requires !AnyDelayed(Run(INIT, trace))
    ensures Quiet(Run(Run(INIT, trace), later))
    ensures Run(Run(INIT, trace), later).freed == 1
  {
    var s := Run(INIT, trace);
    RunKeepsInv(INIT, trace);
    later := QuietIsReached(s);
    RunKeepsInv(s, later);
    QuietIsFreed(Run(s, later));
  }

  /** A timer made while the owner holds is counted, and starts at Schedule. */
  lemma CreateCounts(s: State)
    requires Inv(s) && s.owner == Holding
    ensures var s' := Next(s, Create);
            && s'.count == s.count + 1 && |s'.timers| == |s.timers| + 1
            && s'.timers[|s.timers|].pc == Constructed && s'.timers[..|s.timers|] == s.timers
  {
  }

  /** n steps of the owner alone. */
  function OwnerAlone(s: State, n: nat): State
    decreases n
  {
    if n == 0 then s else OwnerAlone(OwnerNext(s), n - 1)
  }

  /** A plain release: left with the last reference, the owner clears the pointer and frees. */
  lemma OwnerFrees(s: State)
    requires Inv(s) && s.owner == Holding && s.count == 1
    ensures var s' := OwnerAlone(s, 4);
            s'.owner == Released && !s'.hasPtr && s'.count == 0 && s'.freed == 1
  {
  }

  /** With timers still counted it leaves the freeing to them. */
  lemma {:induction false} OwnerEnds(s: State, n: nat)
    requires Inv(s) && n >= OwnerRemaining(s.owner)
    ensures var s' := OwnerAlone(s, n);
            && Inv(s') && s'.owner == Released && s'.timers == s.timers
            && s'.count == Holders(s.timers)
            && (Holders(s.timers) > 0 ==> s'.freed == s.freed == 0)
    decreases n
  {
    if n > 0 {
      NextKeepsInv(s, OwnerStep);
      if s.owner != Released {
        OwnerMoves(s);
      }
      OwnerEnds(OwnerNext(s), n - 1);
    }
  }

  /** No access to a freed ref_ptr goes unrecorded. */
  lemma AccessIsRecorded(s: State, c: Choice)
    requires s.freed > 0
    requires match c
             case Create => s.owner == Holding
             case OwnerStep => s.owner != Released
             case TimerStep(t, _) =>
               t < |s.timers| && (s.timers[t].pc == Reading || s.timers[t].pc == Dropping || s.timers[t].pc == Freeing)
    ensures Next(s, c).touched
  {
  }

  /** Said of the program counters themselves: as long as anybody is still to use the ref_ptr, it has
      not been freed. */
  lemma AccessIsLive(trace: seq<Choice>)
    ensures var s := Run(INIT, trace);
            && (s.owner != Released ==> s.freed == 0)
            && forall t :: 0 <= t < |s.timers| && (TimerHolds(s.timers[t]) == 1 || s.timers[t].pc == Freeing) ==>
                 s.freed == 0
  {
    RunKeepsInv(INIT, trace);
    var s := Run(INIT, trace);
    forall t | 0 <= t < |s.timers| && (TimerHolds(s.timers[t]) == 1 || s.timers[t].pc == Freeing)
      ensures s.freed == 0
    {
      OneHolds(s.timers, t);
    }
  }
}
