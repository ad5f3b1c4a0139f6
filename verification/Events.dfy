/** The dataless-event flag of an RM handle and its select pool, in every interleaving: posting
    sets the flag without the mutex and notifies the pool later under it. */
module DatalessEvents {
  import opened Common
  import opened Mutexes

  /** Threads inside nv_post_event, Select and Deselect. */
  datatype PC =
    | Idle
    | Posted(p: nat)                  // flag set, waiting for the mutex to notify the pool
    | Notifying(p: nat)               // holds the mutex
    | Selecting(w: nat, read: bool)   // waiting for the mutex
    | Adding(w: nat, read: bool)      // holds the mutex
    | Exchanging(w: nat)              // entry added, about to take the flag
    | Waking(w: nat)                  // took the flag, about to notify its own waiter
    | Deselecting(w: nat, read: bool) // waiting for the mutex
    | Removing(w: nat, read: bool)    // holds the mutex

  /** One nv_post_event: the waiters notified at or after the moment it set the flag, and, once it
      has notified the pool, who was in the pool then. */
  datatype Post = Post(notified: set<nat>, done: bool, pool: set<nat>)

  datatype State = State(flag: bool, pool: set<nat>, posts: seq<Post>, sync: Sync<PC>)

  datatype Choice =
    | StartPost
    | StartSelect(w: nat, read: bool)
    | StartDeselect(w: nat, read: bool)
    | Proceed(ok: bool)

  /** notify_select_event for each waiter in ws. */
  function Notify(posts: seq<Post>, ws: set<nat>): seq<Post> {
    seq(|posts|, i requires 0 <= i < |posts| => posts[i].(notified := posts[i].notified + ws))
  }

  function Finish(posts: seq<Post>, p: nat, pool: set<nat>): seq<Post> {
    if p < |posts| then posts[p := posts[p].(done := true, pool := pool)] else posts
  }

  function Next(s: State, a: nat, c: Choice): State {
    if a >= |s.sync.threads| then s
    else match s.sync.threads[a]
      case Idle => (
        match c
        case StartPost =>
          s.(sync := Goto(s.sync, a, Posted(|s.posts|)), flag := true, posts := s.posts + [Post({}, false, {})])
        case StartSelect(w, read) => s.(sync := Goto(s.sync, a, Selecting(w, read)))
        case StartDeselect(w, read) => s.(sync := Goto(s.sync, a, Deselecting(w, read)))
        case Proceed(_) => s)
      case Posted(p) => s.(sync := Acquire(s.sync, a, Notifying(p)))
      case Notifying(p) => s.(sync := Leave(s.sync, a, Idle), posts := Finish(Notify(s.posts, s.pool), p, s.pool))
      case Selecting(w, read) => s.(sync := Acquire(s.sync, a, Adding(w, read)))
      case Adding(w, read) =>
        // a foreign event, or no memory for the entry
        if !read || !(c.Proceed? && c.ok) then s.(sync := Leave(s.sync, a, Idle))
        else s.(sync := Goto(s.sync, a, Exchanging(w)), pool := s.pool + {w})
      case Exchanging(w) =>
        if s.flag then s.(sync := Goto(s.sync, a, Waking(w)), flag := false)
        else s.(sync := Leave(s.sync, a, Idle))
      case Waking(w) => s.(sync := Leave(s.sync, a, Idle), posts := Notify(s.posts, {w}))
      case Deselecting(w, read) => s.(sync := Acquire(s.sync, a, Removing(w, read)))
      case Removing(w, read) =>
        s.(sync := Leave(s.sync, a, Idle), pool := if read then s.pool - {w} else s.pool)
  }

  function Run(s: State, trace: seq<(nat, Choice)>): State
    decreases |trace|
  {
    if trace == [] then s else Run(Next(s, trace[0].0, trace[0].1), trace[1..])
  }

  ghost predicate Init(s: State) {
    && !s.flag && s.sync.mutex == Open && s.pool == {} && s.posts == []
    && forall a :: 0 <= a < |s.sync.threads| ==> s.sync.threads[a] == Idle
  }

  // -- The invariant --

  ghost predicate Inside(pc: PC) {
    pc.Notifying? || pc.Adding? || pc.Exchanging? || pc.Waking? || pc.Removing?
  }

  /** A thread that took the flag still owes somebody a notification. */
  ghost predicate Owed(s: State) {
    s.sync.mutex.Held? && s.sync.mutex.owner < |s.sync.threads| && s.sync.threads[s.sync.mutex.owner].Waking?
  }

  ghost predicate MutexOk(s: State) {
    && (forall a :: 0 <= a < |s.sync.threads| ==> (Inside(s.sync.threads[a]) <==> s.sync.mutex == Held(a)))
    && (s.sync.mutex.Held? ==> s.sync.mutex.owner < |s.sync.threads|)
  }

  ghost predicate Kept(s: State, post: Post) {
    && (s.flag || post.notified != {} || Owed(s))
    && (post.done ==> post.pool <= post.notified)
  }

  ghost predicate Inv(s: State) {
    MutexOk(s) && forall p :: 0 <= p < |s.posts| ==> Kept(s, s.posts[p])
  }

  lemma NextKeepsMutex(s: State, a: nat, c: Choice)
    requires MutexOk(s)
    ensures MutexOk(Next(s, a, c))
  {
  }

  /** What a step does to a post: it may become finished, and gain notified waiters. */
  lemma NextPost(s: State, a: nat, c: Choice, p: nat)
    requires p < |s.posts|
    ensures var s' := Next(s, a, c);
            && p < |s'.posts|
            && s.posts[p].notified <= s'.posts[p].notified
            && (s'.posts[p].done ==>
                  (s.posts[p].done && s'.posts[p].pool == s.posts[p].pool) || s'.posts[p].pool <= s'.posts[p].notified)
            && (a < |s.sync.threads| && s.sync.threads[a].Waking? ==> s'.posts[p].notified != {})
  {
    if a < |s.sync.threads| && s.sync.threads[a].Waking? {
      assert s.sync.threads[a].w in Next(s, a, c).posts[p].notified;
    }
  }

  /** The flag goes down only in the hands of a thread that then owes a notification; the debt goes
      only with a notification. */
  lemma NextDebt(s: State, a: nat, c: Choice)
    requires MutexOk(s) && (s.flag || Owed(s))
    ensures var s' := Next(s, a, c);
            s'.flag || Owed(s') || (a < |s.sync.threads| && s.sync.threads[a].Waking?)
  {
  }

  lemma NextKeepsPost(s: State, a: nat, c: Choice, p: nat)
    requires MutexOk(s) && p < |s.posts| && Kept(s, s.posts[p])
    ensures p < |Next(s, a, c).posts| && Kept(Next(s, a, c), Next(s, a, c).posts[p])
  {
    NextPost(s, a, c, p);
    if s.flag || Owed(s) {
      NextDebt(s, a, c);
    }
  }

  /** The posts of a step are those before it, or one more, just begun. */
  lemma NextPosts(s: State, a: nat, c: Choice)
    ensures var s' := Next(s, a, c);
            || |s'.posts| == |s.posts|
            || (|s'.posts| == |s.posts| + 1 && s'.flag && s'.posts[|s.posts|] == Post({}, false, {}))
  {
  }

  lemma NextKeepsInv(s: State, a: nat, c: Choice)
    requires Inv(s)
    ensures Inv(Next(s, a, c))
  {
    var s' := Next(s, a, c);
    NextKeepsMutex(s, a, c);
    NextPosts(s, a, c);
    forall p | 0 <= p < |s'.posts| ensures Kept(s', s'.posts[p]) {
      if p < |s.posts| {
        NextKeepsPost(s, a, c, p);
      }
    }
  }

  lemma {:induction false} RunKeepsInv(s: State, trace: seq<(nat, Choice)>)
    requires Inv(s)
    ensures Inv(Run(s, trace))
    decreases |trace|
  {
    if trace != [] {
      NextKeepsInv(s, trace[0].0, trace[0].1);
      RunKeepsInv(Next(s, trace[0].0, trace[0].1), trace[1..]);
    }
  }

  /** No lost wakeups. In every interleaving and for every post: the flag is still set, or some
      waiter was notified at or after the post set it, or the thread inside the mutex is about to
      do so. Whoever was in the pool when the post notified it was notified. */
  lemma NoLostWakeup(s: State, trace: seq<(nat, Choice)>)
    requires Init(s)
    ensures var s' := Run(s, trace);
            && (s'.sync.mutex == Open ==>
                  forall p :: 0 <= p < |s'.posts| ==> s'.flag || s'.posts[p].notified != {})
            && (forall p :: 0 <= p < |s'.posts| ==> s'.flag || s'.posts[p].notified != {} || Owed(s'))
            && (forall p :: 0 <= p < |s'.posts| && s'.posts[p].done ==> s'.posts[p].pool <= s'.posts[p].notified)
  {
    RunKeepsInv(s, trace);
    var s' := Run(s, trace);
    assert forall p :: 0 <= p < |s'.posts| ==> Kept(s', s'.posts[p]);
  }

  // -- Staying in the pool --

  /** w has an entry, and no thread is on its way to remove it. */
  ghost predicate Waiting(s: State, w: nat) {
    w in s.pool && forall a :: 0 <= a < |s.sync.threads| ==>
      && !(s.sync.threads[a].Deselecting? && s.sync.threads[a].w == w)
      && !(s.sync.threads[a].Removing? && s.sync.threads[a].w == w)
  }

  /** Nobody deselects w. */
  ghost predicate Undisturbed(trace: seq<(nat, Choice)>, w: nat) {
    forall i :: 0 <= i < |trace| ==> !(trace[i].1.StartDeselect? && trace[i].1.w == w)
  }

  lemma NextKeepsWaiting(s: State, a: nat, c: Choice, w: nat)
    requires Waiting(s, w) && !(c.StartDeselect? && c.w == w)
    ensures Waiting(Next(s, a, c), w)
  {
  }

  /** Posts begun from position n on are unfinished, or w was notified for them. */
  ghost predicate ServedSince(s: State, n: nat, w: nat) {
    forall p :: n <= p < |s.posts| && s.posts[p].done ==> w in s.posts[p].notified
  }

  lemma NextServes(s: State, a: nat, c: Choice, n: nat, w: nat)
    requires Waiting(s, w) && ServedSince(s, n, w)
    ensures ServedSince(Next(s, a, c), n, w)
  {
  }

  /** A waiter that stays in the pool is notified for every later post that has run to its end. */
  lemma {:induction false} WaiterIsServed(s: State, trace: seq<(nat, Choice)>, n: nat, w: nat)
    requires Waiting(s, w) && ServedSince(s, n, w) && Undisturbed(trace, w)
    ensures Waiting(Run(s, trace), w) && ServedSince(Run(s, trace), n, w)
    decreases |trace|
  {
    if trace != [] {
      NextKeepsWaiting(s, trace[0].0, trace[0].1, w);
      NextServes(s, trace[0].0, trace[0].1, n, w);
      assert Undisturbed(trace[1..], w);
      WaiterIsServed(Next(s, trace[0].0, trace[0].1), trace[1..], n, w);
    }
  }

  /** The same, from the moment the waiter is in the pool. */
  lemma EveryLaterPostReachesWaiter(s: State, trace: seq<(nat, Choice)>, w: nat, p: nat)
    requires Waiting(s, w) && Undisturbed(trace, w)
    requires |s.posts| <= p < |Run(s, trace).posts| && Run(s, trace).posts[p].done
    ensures w in Run(s, trace).posts[p].notified
  {
    WaiterIsServed(s, trace, |s.posts|, w);
  }
}

/** The level-triggered events of an NVKMS handle: the level and the pool are both changed under
    the mutex. */
module KmsEvents {
  import opened Common
  import opened Mutexes

  datatype PC =
    | Idle
    | Changing(available: bool)       // EventQueueChanged, waiting for the mutex
    | Setting(available: bool)        // holds the mutex
    | NotifyingAll                    // holds the mutex, level just set
    | Selecting(w: nat, read: bool)
    | Adding(w: nat, read: bool)      // holds the mutex
    | Testing(w: nat)                 // holds the mutex, entry added
    | Deselecting(w: nat, read: bool)
    | Removing(w: nat, read: bool)    // holds the mutex

  /** reached: the waiters notified since they were added and since events last became available. */
  datatype State = State(available: bool, pool: set<nat>, reached: set<nat>, sync: Sync<PC>)

  datatype Choice =
    | StartChange(available: bool)
    | StartSelect(w: nat, read: bool)
    | StartDeselect(w: nat, read: bool)
    | Proceed(ok: bool)

  function Next(s: State, a: nat, c: Choice): State {
    if a >= |s.sync.threads| then s
    else match s.sync.threads[a]
      case Idle => (
        match c
        case StartChange(available) => s.(sync := Goto(s.sync, a, Changing(available)))
        case StartSelect(w, read) => s.(sync := Goto(s.sync, a, Selecting(w, read)))
        case StartDeselect(w, read) => s.(sync := Goto(s.sync, a, Deselecting(w, read)))
        case Proceed(_) => s)
      case Changing(available) => s.(sync := Acquire(s.sync, a, Setting(available)))
      case Setting(available) =>
        if available then s.(sync := Goto(s.sync, a, NotifyingAll), available := true, reached := {})
        else s.(sync := Leave(s.sync, a, Idle), available := false)
      case NotifyingAll => s.(sync := Leave(s.sync, a, Idle), reached := s.reached + s.pool)
      case Selecting(w, read) => s.(sync := Acquire(s.sync, a, Adding(w, read)))
      case Adding(w, read) =>
        if !read || !(c.Proceed? && c.ok) then s.(sync := Leave(s.sync, a, Idle))
        else s.(sync := Goto(s.sync, a, Testing(w)), pool := s.pool + {w}, reached := s.reached - {w})
      case Testing(w) =>
        s.(sync := Leave(s.sync, a, Idle), reached := if s.available then s.reached + {w} else s.reached)
      case Deselecting(w, read) => s.(sync := Acquire(s.sync, a, Removing(w, read)))
      case Removing(w, read) =>
        s.(sync := Leave(s.sync, a, Idle), pool := if read then s.pool - {w} else s.pool)
  }

  function Run(s: State, trace: seq<(nat, Choice)>): State
    decreases |trace|
  {
    if trace == [] then s else Run(Next(s, trace[0].0, trace[0].1), trace[1..])
  }

  ghost predicate Init(s: State) {
    && !s.available && s.sync.mutex == Open && s.pool == {}
    && forall a :: 0 <= a < |s.sync.threads| ==> s.sync.threads[a] == Idle
  }

  ghost predicate Inside(pc: PC) {
    pc.Setting? || pc.NotifyingAll? || pc.Adding? || pc.Testing? || pc.Removing?
  }

  /** Who the thread inside the mutex still has to notify. */
  ghost function Owed(s: State): set<nat> {
    if s.sync.mutex == Open || s.sync.mutex.owner >= |s.sync.threads| then {}
    else match s.sync.threads[s.sync.mutex.owner]
      case NotifyingAll => s.pool
      case Testing(w) => {w}
      case _ => {}
  }

  ghost predicate Inv(s: State) {
    && (forall a :: 0 <= a < |s.sync.threads| ==> (Inside(s.sync.threads[a]) <==> s.sync.mutex == Held(a)))
    && (s.sync.mutex.Held? ==> s.sync.mutex.owner < |s.sync.threads|)
    && (s.available ==> s.pool <= s.reached + Owed(s))
  }

  lemma NextKeepsInv(s: State, a: nat, c: Choice)
    requires Inv(s)
    ensures Inv(Next(s, a, c))
  {
  }

  lemma {:induction false} RunKeepsInv(s: State, trace: seq<(nat, Choice)>)
    requires Inv(s)
    ensures Inv(Run(s, trace))
    decreases |trace|
  {
    if trace != [] {
      NextKeepsInv(s, trace[0].0, trace[0].1);
      RunKeepsInv(Next(s, trace[0].0, trace[0].1), trace[1..]);
    }
  }

  /** Whenever events are available and the mutex is free, every waiter in the pool has been
      notified since it came and since the events became available. */
  lemma PooledWaitersAreNotified(s: State, trace: seq<(nat, Choice)>)
    requires Init(s)
    ensures var s' := Run(s, trace);
            s'.available && s'.sync.mutex == Open ==> s'.pool <= s'.reached
  {
    RunKeepsInv(s, trace);
  }
}
