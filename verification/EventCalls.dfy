/** What a whole call of nv_post_event, Select or Deselect achieves, and that it ends, with any steps
    of other threads in between. */
module DatalessCalls {
  import opened Common
  import opened Mutexes
  import opened DatalessEvents

  /** The trace until thread a is idle again. */
  function Call(s: State, a: nat, trace: seq<(nat, Choice)>): State
    decreases |trace|
  {
    if trace == [] || a >= |s.sync.threads| || s.sync.threads[a] == Idle then s
    else Call(Next(s, trace[0].0, trace[0].1), a, trace[1..])
  }

  /** There is memory for the entry of thread a. */
  predicate Succeeds(trace: seq<(nat, Choice)>, a: nat) {
    forall i :: 0 <= i < |trace| && trace[i].0 == a ==> trace[i].1 == Proceed(true)
  }

  predicate Returned(s: State, a: nat) {
    a < |s.sync.threads| && s.sync.threads[a] == Idle
  }

  /** What the others can do while a is inside: begin posts, which raise the flag. */
  lemma OthersWait(s: State, a: nat, b: nat, c: Choice)
    requires MutexOk(s) && a < |s.sync.threads| && Inside(s.sync.threads[a]) && b != a
    ensures var s' := Next(s, b, c);
            && |s'.sync.threads| == |s.sync.threads| && s'.sync.threads[a] == s.sync.threads[a]
            && s'.pool == s.pool && (s.flag ==> s'.flag)
            && s.posts <= s'.posts
  {
  }

  lemma OthersKeepPC(s: State, a: nat, b: nat, c: Choice)
    requires a < |s.sync.threads| && b != a
    ensures |Next(s, b, c).sync.threads| == |s.sync.threads|
    ensures Next(s, b, c).sync.threads[a] == s.sync.threads[a]
  {
  }

  // -- Select --

  /** Thread a is in Select for waiter w; once its entry is in, the entry stays in. */
  ghost predicate InSelect(s: State, a: nat, w: nat) {
    a < |s.sync.threads| &&
    match s.sync.threads[a]
    case Selecting(v, read) => v == w && read
    case Adding(v, read) => v == w && read
    case Exchanging(v) => v == w && w in s.pool
    case Waking(v) => v == w && w in s.pool
    case _ => false
  }

  /** It has returned, its entry is in, and somebody has been notified for post p. */
  ghost predicate Selected(s: State, a: nat, w: nat, p: nat) {
    Returned(s, a) && w in s.pool && p < |s.posts| && s.posts[p].notified != {}
  }

  lemma SelectStep(s: State, a: nat, w: nat, p: nat)
    requires Inv(s) && InSelect(s, a, w) && p < |s.posts|
    ensures var s' := Next(s, a, Proceed(true));
            p < |s'.posts| && (InSelect(s', a, w) || Selected(s', a, w, p))
  {
    assert Kept(s, s.posts[p]);
    if s.sync.threads[a].Waking? {
      assert w in Next(s, a, Proceed(true)).posts[p].notified;
    }
  }

  lemma OthersKeepSelect(s: State, a: nat, w: nat, b: nat, c: Choice)
    requires MutexOk(s) && InSelect(s, a, w) && b != a
    ensures InSelect(Next(s, b, c), a, w)
  {
    OthersKeepPC(s, a, b, c);
    if Inside(s.sync.threads[a]) {
      OthersWait(s, a, b, c);
    }
  }

  /** When Select returns, with whatever the others did meanwhile, its waiter is in the pool, and for
      every event posted before it somebody has been notified: nothing is still pending. */
  lemma {:induction false} SelectReturns(s: State, a: nat, w: nat, trace: seq<(nat, Choice)>, p: nat)
    requires Inv(s) && InSelect(s, a, w) && p < |s.posts| && Succeeds(trace, a)
    ensures Returned(Call(s, a, trace), a) ==> Selected(Call(s, a, trace), a, w, p)
    decreases |trace|
  {
    if trace != [] {
      var (b, c) := trace[0];
      var s' := Next(s, b, c);
      NextKeepsInv(s, b, c);
      NextPost(s, b, c, p);
      assert Succeeds(trace[1..], a);
      if b == a {
        SelectStep(s, a, w, p);
      } else {
        OthersKeepSelect(s, a, w, b, c);
      }
      if InSelect(s', a, w) {
        SelectReturns(s', a, w, trace[1..], p);
      }
    }
  }

  /** The whole call. */
  lemma SelectCall(s: State, a: nat, w: nat, trace: seq<(nat, Choice)>, p: nat)
    requires Inv(s) && Returned(s, a) && p < |s.posts| && Succeeds(trace, a)
    ensures var s' := Call(Next(s, a, StartSelect(w, true)), a, trace);
            Returned(s', a) ==> Selected(s', a, w, p)
  {
    NextKeepsInv(s, a, StartSelect(w, true));
    SelectReturns(Next(s, a, StartSelect(w, true)), a, w, trace, p);
  }

  /** A flag found up is taken, and for every post so far the waiter that took it is notified, and
      nobody else. */
  lemma {:induction false} FlagIsTaken(s: State, a: nat, w: nat, trace: seq<(nat, Choice)>, p: nat)
    requires Inv(s) && a < |s.sync.threads| && p < |s.posts|
    requires (s.sync.threads[a] == Exchanging(w) && s.flag) || s.sync.threads[a] == Waking(w)
    ensures var s' := Call(s, a, trace);
            Returned(s', a) ==> p < |s'.posts| && s'.posts[p].notified == s.posts[p].notified + {w}
    decreases |trace|
  {
    if trace != [] {
      var (b, c) := trace[0];
      var s' := Next(s, b, c);
      NextKeepsInv(s, b, c);
      NextPost(s, b, c, p);
      if b == a {
        if s.sync.threads[a] == Exchanging(w) {
          FlagIsTaken(s', a, w, trace[1..], p);
        }
      } else {
        OthersWait(s, a, b, c);
        FlagIsTaken(s', a, w, trace[1..], p);
      }
    }
  }

  /** The exact effect on the pool, from the moment the mutex is a's: the entry is added, unless the
      event is a foreign one. */
  lemma {:induction false} PoolAfterSelect(s: State, a: nat, w: nat, read: bool, trace: seq<(nat, Choice)>)
    requires MutexOk(s) && a < |s.sync.threads| && s.sync.threads[a] == Adding(w, read) && Succeeds(trace, a)
    ensures var s' := Call(s, a, trace);
            Returned(s', a) ==> s'.pool == if read then s.pool + {w} else s.pool
    decreases |trace|
  {
    if trace != [] {
      var (b, c) := trace[0];
      NextKeepsMutex(s, b, c);
      assert Succeeds(trace[1..], a);
      if b != a {
        OthersWait(s, a, b, c);
        PoolAfterSelect(Next(s, b, c), a, w, read, trace[1..]);
      } else if read {
        PoolStays(Next(s, b, c), a, trace[1..]);
      }
    }
  }

  lemma {:induction false} PoolStays(s: State, a: nat, trace: seq<(nat, Choice)>)
    requires MutexOk(s) && a < |s.sync.threads| && (s.sync.threads[a].Exchanging? || s.sync.threads[a].Waking?)
    ensures Call(s, a, trace).pool == s.pool
    decreases |trace|
  {
    if trace != [] {
      var (b, c) := trace[0];
      var s' := Next(s, b, c);
      NextKeepsMutex(s, b, c);
      if b != a {
        OthersWait(s, a, b, c);
      }
      if s'.sync.threads[a] != Idle {
        PoolStays(s', a, trace[1..]);
      }
    }
  }

  /** Without memory for the entry nothing has changed. */
  lemma FailedSelect(s: State, a: nat, w: nat, read: bool)
    requires MutexOk(s) && a < |s.sync.threads| && s.sync.threads[a] == Adding(w, read)
    ensures var s' := Next(s, a, Proceed(false));
            Returned(s', a) && s'.pool == s.pool && s'.posts == s.posts && s'.flag == s.flag && s'.sync.mutex == Open
  {
  }

  // -- Deselect --

  lemma {:induction false} PoolAfterDeselect(s: State, a: nat, w: nat, read: bool, trace: seq<(nat, Choice)>)
    requires MutexOk(s) && a < |s.sync.threads| && s.sync.threads[a] == Removing(w, read)
    ensures var s' := Call(s, a, trace);
            Returned(s', a) ==> s'.pool == if read then s.pool - {w} else s.pool
    decreases |trace|
  {
    if trace != [] {
      var (b, c) := trace[0];
      NextKeepsMutex(s, b, c);
      if b != a {
        OthersWait(s, a, b, c);
        PoolAfterDeselect(Next(s, b, c), a, w, read, trace[1..]);
      }
    }
  }

  ghost predicate InDeselect(s: State, a: nat, w: nat) {
    a < |s.sync.threads| && (s.sync.threads[a] == Deselecting(w, true) || s.sync.threads[a] == Removing(w, true))
  }

  /** The whole call: at its return the waiter is not in the pool. */
  lemma {:induction false} DeselectReturns(s: State, a: nat, w: nat, trace: seq<(nat, Choice)>)
    requires MutexOk(s) && InDeselect(s, a, w)
    ensures Returned(Call(s, a, trace), a) ==> w !in Call(s, a, trace).pool
    decreases |trace|
  {
    if trace != [] {
      var (b, c) := trace[0];
      var s' := Next(s, b, c);
      NextKeepsMutex(s, b, c);
      if b != a {
        OthersKeepPC(s, a, b, c);
      }
      if InDeselect(s', a, w) {
        DeselectReturns(s', a, w, trace[1..]);
      }
    }
  }

  lemma DeselectCall(s: State, a: nat, w: nat, trace: seq<(nat, Choice)>)
    requires MutexOk(s) && Returned(s, a)
    ensures var s' := Call(Next(s, a, StartDeselect(w, true)), a, trace);
            Returned(s', a) ==> w !in s'.pool
  {
    NextKeepsMutex(s, a, StartDeselect(w, true));
    DeselectReturns(Next(s, a, StartDeselect(w, true)), a, w, trace);
  }

  // -- nv_post_event --

  /** With the mutex, thread a wakes exactly the pool. */
  lemma {:induction false} PoolIsWoken(s: State, a: nat, p: nat, trace: seq<(nat, Choice)>, q: nat)
    requires MutexOk(s) && a < |s.sync.threads| && s.sync.threads[a] == Notifying(p)
    requires p < |s.posts| && q < |s.posts|
    ensures var s' := Call(s, a, trace);
            Returned(s', a) ==>
              && |s.posts| <= |s'.posts| && s'.posts[p].done && s'.posts[p].pool == s.pool
              && s'.posts[q].notified == s.posts[q].notified + s.pool
    decreases |trace|
  {
    if trace != [] {
      var (b, c) := trace[0];
      NextKeepsMutex(s, b, c);
      if b != a {
        OthersWait(s, a, b, c);
        PoolIsWoken(Next(s, b, c), a, p, trace[1..], q);
      }
    }
  }

  ghost predicate InPost(s: State, a: nat, p: nat) {
    && a < |s.sync.threads| && p < |s.posts|
    && (s.sync.threads[a] == Posted(p) || s.sync.threads[a] == Notifying(p))
  }

  lemma {:induction false} PostReturns(s: State, a: nat, p: nat, trace: seq<(nat, Choice)>)
    requires InPost(s, a, p)
    ensures var s' := Call(s, a, trace);
            Returned(s', a) ==> p < |s'.posts| && s'.posts[p].done
    decreases |trace|
  {
    if trace != [] {
      var (b, c) := trace[0];
      var s' := Next(s, b, c);
      NextPost(s, b, c, p);
      if b != a {
        OthersKeepPC(s, a, b, c);
      }
      if InPost(s', a, p) {
        PostReturns(s', a, p, trace[1..]);
      }
    }
  }

  /** The whole call: the flag is up at once, and at the return the post has notified its pool. */
  lemma PostCall(s: State, a: nat, trace: seq<(nat, Choice)>)
    requires Returned(s, a)
    ensures Next(s, a, StartPost).flag && |Next(s, a, StartPost).posts| == |s.posts| + 1
    ensures var s' := Call(Next(s, a, StartPost), a, trace);
            Returned(s', a) ==> |s.posts| < |s'.posts| && s'.posts[|s.posts|].done
  {
    PostReturns(Next(s, a, StartPost), a, |s.posts|, trace);
  }

  // -- Every call ends --

  /** Own steps still to be made. */
  function Ahead(pc: PC): nat {
    match pc
    case Idle => 0
    case Posted(_) => 2
    case Notifying(_) => 1
    case Selecting(_, _) => 4
    case Adding(_, _) => 3
    case Exchanging(_) => 2
    case Waking(_) => 1
    case Deselecting(_, _) => 2
    case Removing(_, _) => 1
  }

  /** The thread asks for the mutex, and another one has it. */
  predicate Waits(s: State, a: nat) {
    && a < |s.sync.threads| && s.sync.mutex.Held?
    && (s.sync.threads[a].Posted? || s.sync.threads[a].Selecting? || s.sync.threads[a].Deselecting?)
  }

  /** Steps of thread a at which it does not wait, until it is idle again. */
  function OwnSteps(s: State, a: nat, trace: seq<(nat, Choice)>): nat
    decreases |trace|
  {
    if trace == [] || a >= |s.sync.threads| || s.sync.threads[a] == Idle then 0
    else
      (if trace[0].0 == a && !Waits(s, a) then 1 else 0)
        + OwnSteps(Next(s, trace[0].0, trace[0].1), a, trace[1..])
  }

  lemma OwnStep(s: State, a: nat, c: Choice)
    requires a < |s.sync.threads| && s.sync.threads[a] != Idle
    ensures var s' := Next(s, a, c);
            && |s'.sync.threads| == |s.sync.threads|
            && if Waits(s, a) then s' == s else Ahead(s'.sync.threads[a]) < Ahead(s.sync.threads[a])
  {
  }

  /** A call ends after at most four steps of its own at which it does not wait for the mutex;
      whoever holds the mutex never waits. */
  lemma {:induction false} CallEnds(s: State, a: nat, trace: seq<(nat, Choice)>)
    requires a < |s.sync.threads|
    ensures OwnSteps(s, a, trace) <= Ahead(s.sync.threads[a]) <= 4
    decreases |trace|
  {
    if trace != [] && s.sync.threads[a] != Idle {
      var (b, c) := trace[0];
      if b == a {
        OwnStep(s, a, c);
      } else {
        OthersKeepPC(s, a, b, c);
      }
      CallEnds(Next(s, b, c), a, trace[1..]);
    }
  }
}

/** The same for EventQueueChanged, Select and Deselect of an NVKMS handle. */
module KmsCalls {
  import opened Common
  import opened Mutexes
  import opened KmsEvents

  function Call(s: State, a: nat, trace: seq<(nat, Choice)>): State
    decreases |trace|
  {
    if trace == [] || a >= |s.sync.threads| || s.sync.threads[a] == Idle then s
    else Call(Next(s, trace[0].0, trace[0].1), a, trace[1..])
  }

  predicate Succeeds(trace: seq<(nat, Choice)>, a: nat) {
    forall i :: 0 <= i < |trace| && trace[i].0 == a ==> trace[i].1 == Proceed(true)
  }

  predicate Returned(s: State, a: nat) {
    a < |s.sync.threads| && s.sync.threads[a] == Idle
  }

  /** While a is inside the others can do nothing but ask for the mutex. */
  lemma OthersWait(s: State, a: nat, b: nat, c: Choice)
    requires Inv(s) && a < |s.sync.threads| && Inside(s.sync.threads[a]) && b != a
    ensures var s' := Next(s, b, c);
            && |s'.sync.threads| == |s.sync.threads| && s'.sync.threads[a] == s.sync.threads[a]
            && s'.available == s.available && s'.pool == s.pool && s'.reached == s.reached
  {
  }

  lemma OthersKeepPC(s: State, a: nat, b: nat, c: Choice)
    requires a < |s.sync.threads| && b != a
    ensures |Next(s, b, c).sync.threads| == |s.sync.threads|
    ensures Next(s, b, c).sync.threads[a] == s.sync.threads[a]
  {
  }

  // -- EventQueueChanged --

  /** The level that thread a is to set, or has set. */
  ghost predicate InChange(s: State, a: nat, available: bool) {
    a < |s.sync.threads| &&
    match s.sync.threads[a]
    case Changing(v) => v == available
    case Setting(v) => v == available
    case NotifyingAll => available && s.available
    case _ => false
  }

  /** When it returns, with whatever the others did meanwhile, the level is as asked for, and if
      events are available everybody in the pool has been notified. */
  lemma {:induction false} ChangeReturns(s: State, a: nat, available: bool, trace: seq<(nat, Choice)>)
    requires Inv(s) && InChange(s, a, available)
    ensures var s' := Call(s, a, trace);
            Returned(s', a) ==> s'.available == available && (available ==> s'.pool <= s'.reached)
    decreases |trace|
  {
    if trace != [] {
      var (b, c) := trace[0];
      var s' := Next(s, b, c);
      NextKeepsInv(s, b, c);
      if b != a {
        OthersKeepPC(s, a, b, c);
        if Inside(s.sync.threads[a]) {
          OthersWait(s, a, b, c);
        }
      }
      if InChange(s', a, available) {
        ChangeReturns(s', a, available, trace[1..]);
      }
    }
  }

  lemma ChangeCall(s: State, a: nat, available: bool, trace: seq<(nat, Choice)>)
    requires Inv(s) && Returned(s, a)
    ensures var s' := Call(Next(s, a, StartChange(available)), a, trace);
            Returned(s', a) ==> s'.available == available && (available ==> s'.pool <= s'.reached)
  {
    NextKeepsInv(s, a, StartChange(available));
    ChangeReturns(Next(s, a, StartChange(available)), a, available, trace);
  }

  /** The level that the last thread to get the mutex for it was to set. */
  function LastLevel(s: State, trace: seq<(nat, Choice)>, level: bool): bool
    decreases |trace|
  {
    if trace == [] then level
    else
      var (a, c) := trace[0];
      var sets := a < |s.sync.threads| && s.sync.threads[a].Setting?;
      LastLevel(Next(s, a, c), trace[1..], if sets then s.sync.threads[a].available else level)
  }

  lemma {:induction false} LevelIsLastSet(s: State, trace: seq<(nat, Choice)>)
    ensures Run(s, trace).available == LastLevel(s, trace, s.available)
    decreases |trace|
  {
    if trace != [] {
      LevelIsLastSet(Next(s, trace[0].0, trace[0].1), trace[1..]);
    }
  }

  // -- Select and Deselect --

  /** Thread a is in Select for waiter w, which does not count as notified before it is tested. */
  ghost predicate InSelect(s: State, a: nat, w: nat) {
    a < |s.sync.threads| &&
    match s.sync.threads[a]
    case Selecting(v, read) => v == w && read
    case Adding(v, read) => v == w && read
    case Testing(v) => v == w && w in s.pool && w !in s.reached
    case _ => false
  }

  /** When Select returns its waiter is in the pool, and notified exactly if events are available. */
  lemma {:induction false} SelectReturns(s: State, a: nat, w: nat, trace: seq<(nat, Choice)>)
    requires Inv(s) && InSelect(s, a, w) && Succeeds(trace, a)
    ensures var s' := Call(s, a, trace);
            Returned(s', a) ==> w in s'.pool && (w in s'.reached <==> s'.available)
    decreases |trace|
  {
    if trace != [] {
      var (b, c) := trace[0];
      var s' := Next(s, b, c);
      NextKeepsInv(s, b, c);
      assert Succeeds(trace[1..], a);
      if b != a {
        OthersKeepPC(s, a, b, c);
        if Inside(s.sync.threads[a]) {
          OthersWait(s, a, b, c);
        }
      }
      if InSelect(s', a, w) {
        SelectReturns(s', a, w, trace[1..]);
      }
    }
  }

  lemma SelectCall(s: State, a: nat, w: nat, trace: seq<(nat, Choice)>)
    requires Inv(s) && Returned(s, a) && Succeeds(trace, a)
    ensures var s' := Call(Next(s, a, StartSelect(w, true)), a, trace);
            Returned(s', a) ==> w in s'.pool && (w in s'.reached <==> s'.available)
  {
    NextKeepsInv(s, a, StartSelect(w, true));
    SelectReturns(Next(s, a, StartSelect(w, true)), a, w, trace);
  }

  /** What a thread inside Select or Deselect makes of the pool. */
  function PoolThen(s: State, a: nat): set<nat>
    requires a < |s.sync.threads|
  {
    match s.sync.threads[a]
    case Adding(w, read) => if read then s.pool + {w} else s.pool
    case Removing(w, read) => if read then s.pool - {w} else s.pool
    case _ => s.pool
  }

  /** The exact effect on the pool, from the moment the mutex is a's. */
  lemma {:induction false} PoolAfterCall(s: State, a: nat, trace: seq<(nat, Choice)>)
    requires Inv(s) && a < |s.sync.threads| && Inside(s.sync.threads[a]) && Succeeds(trace, a)
    ensures Returned(Call(s, a, trace), a) ==> Call(s, a, trace).pool == PoolThen(s, a)
    decreases |trace|
  {
    if trace != [] {
      var (b, c) := trace[0];
      var s' := Next(s, b, c);
      NextKeepsInv(s, b, c);
      assert Succeeds(trace[1..], a);
      if b != a {
        OthersWait(s, a, b, c);
      }
      if Inside(s'.sync.threads[a]) {
        PoolAfterCall(s', a, trace[1..]);
      }
    }
  }

  /** Without memory for the entry nothing has changed. */
  lemma FailedSelect(s: State, a: nat, w: nat, read: bool)
    requires Inv(s) && a < |s.sync.threads| && s.sync.threads[a] == Adding(w, read)
    ensures var s' := Next(s, a, Proceed(false));
            && Returned(s', a) && s'.sync.mutex == Open
            && s'.pool == s.pool && s'.reached == s.reached && s'.available == s.available
  {
  }

  ghost predicate InDeselect(s: State, a: nat, w: nat) {
    a < |s.sync.threads| && (s.sync.threads[a] == Deselecting(w, true) || s.sync.threads[a] == Removing(w, true))
  }

  /** The whole call: at its return the waiter is not in the pool. */
  lemma {:induction false} DeselectReturns(s: State, a: nat, w: nat, trace: seq<(nat, Choice)>)
    requires Inv(s) && InDeselect(s, a, w)
    ensures Returned(Call(s, a, trace), a) ==> w !in Call(s, a, trace).pool
    decreases |trace|
  {
    if trace != [] {
      var (b, c) := trace[0];
      var s' := Next(s, b, c);
      NextKeepsInv(s, b, c);
      if b != a {
        OthersKeepPC(s, a, b, c);
      }
      if InDeselect(s', a, w) {
        DeselectReturns(s', a, w, trace[1..]);
      }
    }
  }

  lemma DeselectCall(s: State, a: nat, w: nat, trace: seq<(nat, Choice)>)
    requires Inv(s) && Returned(s, a)
    ensures var s' := Call(Next(s, a, StartDeselect(w, true)), a, trace);
            Returned(s', a) ==> w !in s'.pool
  {
    NextKeepsInv(s, a, StartDeselect(w, true));
    DeselectReturns(Next(s, a, StartDeselect(w, true)), a, w, trace);
  }

  // -- Every call ends --

  function Ahead(pc: PC): nat {
    match pc
    case Idle => 0
    case Changing(_) => 3
    case Setting(_) => 2
    case NotifyingAll => 1
    case Selecting(_, _) => 3
    case Adding(_, _) => 2
    case Testing(_) => 1
    case Deselecting(_, _) => 2
    case Removing(_, _) => 1
  }

  predicate Waits(s: State, a: nat) {
    && a < |s.sync.threads| && s.sync.mutex.Held?
    && (s.sync.threads[a].Changing? || s.sync.threads[a].Selecting? || s.sync.threads[a].Deselecting?)
  }

  /** Steps of thread a at which it does not wait, until it is idle again. */
  function OwnSteps(s: State, a: nat, trace: seq<(nat, Choice)>): nat
    decreases |trace|
  {
    if trace == [] || a >= |s.sync.threads| || s.sync.threads[a] == Idle then 0
    else
      (if trace[0].0 == a && !Waits(s, a) then 1 else 0)
        + OwnSteps(Next(s, trace[0].0, trace[0].1), a, trace[1..])
  }

  lemma OwnStep(s: State, a: nat, c: Choice)
    requires a < |s.sync.threads| && s.sync.threads[a] != Idle
    ensures var s' := Next(s, a, c);
            && |s'.sync.threads| == |s.sync.threads|
            && if Waits(s, a) then s' == s else Ahead(s'.sync.threads[a]) < Ahead(s.sync.threads[a])
  {
  }

  lemma {:induction false} CallEnds(s: State, a: nat, trace: seq<(nat, Choice)>)
    requires a < |s.sync.threads|
    ensures OwnSteps(s, a, trace) <= Ahead(s.sync.threads[a]) <= 3
    decreases |trace|
  {
    if trace != [] && s.sync.threads[a] != Idle {
      var (b, c) := trace[0];
      if b == a {
        OwnStep(s, a, c);
      } else {
        OthersKeepPC(s, a, b, c);
      }
      CallEnds(Next(s, b, c), a, trace[1..]);
    }
  }
}
