/** The interrupt-safe pool run by one caller at a time, on its arrays: every method is proved
    against the values of PoolValues. What other callers may do while the lock is dropped is the
    subject of PoolSteps. */
module IntrSafePools {
  import opened SizeClasses
  import opened PoolValues

  /** calloc and free: an allocation may fail, a block is never handed out twice. */
  class Heap {
    var next: nat
    var freed: seq<Ptr>
    ghost var given: seq<Ptr>   // all that calloc has returned

    constructor ()
      ensures next == 0 && freed == [] && given == []
    {
      next, freed, given := 0, [], [];
    }

    method Calloc(size: nat) returns (p: Ptr)
      modifies this`next, this`given
      ensures p.At? ==> p.block == Block(old(next), size)
      ensures next == old(next) + (if p.At? then 1 else 0)
      ensures given == old(given) + [p]
    {
      if * {
        p := Null;
      } else {
        p := At(Block(next, size));
        next := next + 1;
      }
      given := given + [p];
    }

    method Free(p: Ptr)
      modifies this`freed
      ensures freed == old(freed) + [p]
    {
      freed := freed + [p];
    }
  }

  function Reversed(s: Slots): Slots {
    if s == [] then [] else [Last(s)] + Reversed(Front(s))
  }

  /** A stack of pointers in a fixed array. */
  class Group {
    const max: nat
    const items: array<Ptr>
    var count: nat

    ghost predicate Valid()
      reads this, items
    {
      && items.Length == max
      && count <= max
      && forall k :: count <= k < max ==> items[k] == Null
    }

    ghost function Contents(): Slots
      reads this, items
      requires Valid()
    {
      items[..count]
    }

    constructor (max: nat)
      ensures Valid() && fresh(items) && this.max == max && Contents() == []
    {
      this.max := max;
      items := new Ptr[max](_ => Null);
      count := 0;
    }

    method Alloc() returns (p: Ptr)
      requires Valid()
      modifies this`count, items
      ensures Valid()
      ensures old(Contents()) == [] ==> p == Null && Contents() == []
      ensures old(Contents()) != [] ==> p == Last(old(Contents())) && Contents() == Front(old(Contents()))
    {
      if count == 0 {
        return Null;
      }
      count := count - 1;
      p := items[count];
      items[count] := Null;
    }

    method Free(p: Ptr) returns (panicked: bool)
      requires Valid()
      modifies this`count, items
      ensures Valid()
      ensures panicked <==> |old(Contents())| >= max
      ensures Contents() == if panicked then old(Contents()) else old(Contents()) + [p]
    {
      if count >= max {
        return true;
      }
      items[count] := p;
      count := count + 1;
      panicked := false;
    }

    /** Frees every slot, newest first. The overflow test of the source cannot fire here: Valid()
        bounds count. */
    method ReclaimAll(heap: Heap)
      requires Valid()
      modifies this`count, items, heap`freed
      ensures Valid() && Contents() == []
      ensures heap.freed == old(heap.freed) + Reversed(old(Contents()))
    {
      while count > 0
        invariant Valid()
        invariant heap.freed + Reversed(Contents()) == old(heap.freed) + Reversed(old(Contents()))
      {
        ghost var before := Contents();
        count := count - 1;
        var p := items[count];
        items[count] := Null;
        assert Contents() == Front(before) && p == Last(before);
        heap.Free(p);
        assert heap.freed + Reversed(Contents()) == (heap.freed[..|heap.freed| - 1] + [p]) + Reversed(Contents());
        assert heap.freed + Reversed(Contents()) == heap.freed[..|heap.freed| - 1] + Reversed(before);
      }
      assert Contents() == [];
    }
  }

  datatype Outcome = Returned | Panicked | Stuck

  class IntrSafePool {
    const groups: seq<Group>
    const reclaim: Group
    ghost const repr: set<object>
    var level: int

    /** The fixed shape: four groups of 16 slots, one reclaim list of 4096, no sharing. */
    ghost predicate Shape() {
      && |groups| == GROUP_COUNT
      && (forall i :: 0 <= i < |groups| ==>
            && groups[i] in repr && groups[i].items in repr
            && groups[i].max == GROUP_MAX
            && groups[i] != reclaim && groups[i].items != reclaim.items)
      && (forall i, j :: 0 <= i < j < |groups| ==> groups[i] != groups[j] && groups[i].items != groups[j].items)
      && this in repr && reclaim in repr && reclaim.items in repr
      && reclaim.max == RECLAIM_MAX
    }

    ghost predicate Valid()
      reads repr
    {
      && Shape()
      && level >= 0
      && reclaim.Valid()
      && (forall i :: 0 <= i < |groups| ==> groups[i].Valid())
    }

    /** What group i holds. */
    ghost function View(): (gs: seq<Slots>)
      reads repr
      requires Valid()
      ensures |gs| == GROUP_COUNT
    {
      [groups[0].Contents(), groups[1].Contents(), groups[2].Contents(), groups[3].Contents()]
    }

    ghost function Pending(): Slots
      reads repr
      requires Valid()
    {
      reclaim.Contents()
    }

    /** The fill of group i, as the loops of the source read it. */
    function Count(i: nat): (n: nat)
      reads repr
      requires Valid() && i < GROUP_COUNT
      ensures n == |View()[i]| <= GROUP_MAX
    {
      groups[i].count
    }

    constructor ()
      ensures Valid() && level == 0
      ensures fresh(repr)
      ensures View() == [[], [], [], []] && Pending() == []
    {
      var r := new Group(RECLAIM_MAX);
      var gs, objects := NewGroups();
      groups := gs;
      reclaim := r;
      repr := {this, r, r.items} + objects;
      level := 0;
    }

    /** The array of groups that the pool object contains. */
    static method NewGroups() returns (gs: seq<Group>, ghost objects: set<object>)
      ensures |gs| == GROUP_COUNT && fresh(objects)
      ensures forall i :: 0 <= i < |gs| ==>
                && gs[i] in objects && gs[i].items in objects
                && gs[i].Valid() && gs[i].max == GROUP_MAX && gs[i].Contents() == []
      ensures forall i, j :: 0 <= i < j < |gs| ==> gs[i] != gs[j] && gs[i].items != gs[j].items
    {
      gs, objects := [], {};
      while |gs| < GROUP_COUNT
        invariant |gs| <= GROUP_COUNT && fresh(objects)
        invariant forall i :: 0 <= i < |gs| ==>
                    && gs[i] in objects && gs[i].items in objects
                    && gs[i].Valid() && gs[i].max == GROUP_MAX && gs[i].Contents() == []
        invariant forall i, j :: 0 <= i < j < |gs| ==> gs[i] != gs[j] && gs[i].items != gs[j].items
      {
        var g := new Group(GROUP_MAX);
        gs := gs + [g];
        objects := objects + {g, g.items};
      }
    }

    // -- One group at a time --

    method TakeFrom(i: nat) returns (p: Ptr)
      requires Valid() && i < GROUP_COUNT
      modifies repr
      ensures Valid() && level == old(level) && Pending() == old(Pending())
      ensures p == if old(View())[i] == [] then Null else Last(old(View())[i])
      ensures View() == if old(View())[i] == [] then old(View()) else old(View())[i := Front(old(View())[i])]
    {
      p := groups[i].Alloc();
    }

    method Store(i: nat, p: Ptr)
      requires Valid() && i < GROUP_COUNT && Count(i) < GROUP_MAX
      modifies repr
      ensures Valid() && level == old(level) && Pending() == old(Pending())
      ensures View() == old(View())[i := old(View())[i] + [p]]
    {
      var group := groups[i];
      group.items[group.count] := p;
      group.count := group.count + 1;
      assert group.Contents() == old(group.Contents()) + [p];
    }

    method Drain(i: nat, heap: Heap)
      requires Valid() && heap !in repr && i < GROUP_COUNT
      modifies repr, heap`freed
      ensures Valid() && level == old(level) && Pending() == old(Pending())
      ensures View() == old(View())[i := []]
      ensures heap.freed == old(heap.freed) + Reversed(old(View())[i])
    {
      groups[i].ReclaimAll(heap);
    }

    method DrainReclaim(heap: Heap)
      requires Valid() && heap !in repr
      modifies repr, heap`freed
      ensures Valid() && level == old(level) && View() == old(View())
      ensures Pending() == []
      ensures heap.freed == old(heap.freed) + Reversed(old(Pending()))
    {
      reclaim.ReclaimAll(heap);
    }

    // -- The operations --

    method ReclaimAll(heap: Heap)
      requires Valid() && heap !in repr
      modifies repr, heap`freed
      ensures Valid() && level == old(level)
      ensures Pending() == [] && View() == [[], [], [], []]
      ensures heap.freed == old(heap.freed) + Reversed(old(Pending())) + ReversedFrom(old(View()), GROUP_COUNT)
    {
      DrainReclaim(heap);
      DrainGroups(heap);
    }

    /** The loop of ReclaimAll. */
    method DrainGroups(heap: Heap)
      requires Valid() && heap !in repr
      modifies repr, heap`freed
      ensures Valid() && level == old(level) && Pending() == old(Pending())
      ensures View() == [[], [], [], []]
      ensures heap.freed == old(heap.freed) + ReversedFrom(old(View()), GROUP_COUNT)
    {
      ghost var was := View();
      ghost var done := heap.freed;
      var i := 0;
      while i < GROUP_COUNT
        invariant 0 <= i <= GROUP_COUNT
        invariant Valid() && level == old(level) && Pending() == old(Pending())
        invariant Emptied(was, View(), i)
        invariant heap.freed == done + ReversedFrom(was, i)
      {
        ghost var prev := View();
        Drain(i, heap);
        OneMoreEmptied(was, prev, i, done);
        i := i + 1;
      }
      AllEmptied(was, View());
    }

    /** Stuck: the doubling loop goes on for ever, holding the lock, with the level raised.
        Panicked: the source has entered the kernel debugger. */
    method Alloc(size: nat) returns (p: Ptr, outcome: Outcome)
      requires Valid() && size < SIZE_LIMIT
      modifies repr
      ensures Valid() && Pending() == old(Pending())
      ensures outcome == Stuck <==> size > HALF_LIMIT
      ensures outcome == Stuck ==> View() == old(View()) && level == old(level) + 1
      ensures outcome != Stuck ==>
                && (View(), p) == AllocFrom(old(View()), ClassOf(size))
                && level == old(level)
                && (outcome == Panicked <==> p.Null?)
    {
      level := level + 1;
      assert View() == old(View());
      p := Null;
      var n := FindClass(size);
      if n.None? {
        return p, Stuck;
      }
      ClassIsUnique(size, n.value);
      p := TakeFirst(n.value);
      level := level - 1;
      outcome := if p.At? then Returned else Panicked;
    }

    /** The loop of Alloc over the groups. */
    method TakeFirst(n: nat) returns (p: Ptr)
      requires Valid()
      modifies repr
      ensures Valid() && level == old(level) && Pending() == old(Pending())
      ensures (View(), p) == AllocFrom(old(View()), n)
    {
      var i := n;
      while i < GROUP_COUNT
        invariant n <= i && (i <= GROUP_COUNT || i == n)
        invariant Valid() && level == old(level) && Pending() == old(Pending())
        invariant AllocFrom(View(), i) == AllocFrom(old(View()), n)
      {
        p := TakeFrom(i);
        if p.At? {
          return;
        }
        i := i + 1;
      }
      p := Null;
    }

    method Free(p: Ptr) returns (panicked: bool)
      requires Valid()
      modifies repr
      ensures Valid() && level == old(level) && View() == old(View())
      ensures panicked <==> |old(Pending())| >= RECLAIM_MAX
      ensures Pending() == old(Pending()) + (if panicked then [] else [p])
    {
      level := level + 1;
      panicked := reclaim.Free(p);
      level := level - 1;
    }

    /** Nothing when another Maintain is under way; otherwise the reclaim list is emptied and
        every group filled up with blocks of its own size, all that calloc gives, in that order. */
    method Maintain(heap: Heap)
      requires Valid() && heap !in repr
      modifies repr, heap
      ensures Valid() && level == old(level)
      ensures old(level) > 0 ==>
                View() == old(View()) && Pending() == old(Pending()) && unchanged(heap)
      ensures old(level) == 0 ==>
                && Full(View()) && Pending() == []
                && heap.freed == old(heap.freed) + Reversed(old(Pending()))
                && Grown(old(View()), View())
                && heap.given == old(heap.given) + Gained(old(View()), View(), GROUP_COUNT)
      ensures old(WellSized(View())) ==> WellSized(View())
    {
      var oldLevel := level;
      level := level + 1;
      assert View() == old(View());
      if oldLevel > 0 {
        level := level - 1;
        return;
      }
      DrainReclaim(heap);
      FillGroups(heap);
      GrownKeepsSizes(old(View()), View());
      level := level - 1;
    }

    /** The outer loop of Maintain. */
    method FillGroups(heap: Heap)
      requires Valid() && heap !in repr
      modifies repr, heap`next, heap`given
      ensures Valid() && level == old(level) && Pending() == old(Pending())
      ensures Full(View()) && Grown(old(View()), View())
      ensures heap.given == old(heap.given) + Gained(old(View()), View(), GROUP_COUNT)
    {
      ghost var was := View();
      ghost var given := heap.given;
      var size := MIN_SIZE;
      var i := 0;
      while i < GROUP_COUNT
        invariant 0 <= i <= GROUP_COUNT && size == Capacity(i)
        invariant Valid() && level == old(level) && Pending() == old(Pending())
        invariant FullBelow(View(), i) && Grown(was, View())
        invariant Untouched(was, View(), i)
        invariant heap.given == given + Gained(was, View(), i)
      {
        ghost var prev := View();
        FillGroup(i, size, heap);
        OneMoreFull(was, prev, View(), i);
        OneMoreGained(was, prev, View(), i, given);
        size := size * 2;
        i := i + 1;
      }
    }

    /** The inner loop of Maintain. */
    method FillGroup(i: nat, size: nat, heap: Heap)
      requires Valid() && heap !in repr && i < GROUP_COUNT && size == Capacity(i)
      modifies repr, heap`next, heap`given
      ensures Valid() && level == old(level) && Pending() == old(Pending())
      ensures |View()[i]| == GROUP_MAX
      ensures GrownAt(old(View()), View(), i)
      ensures heap.given == old(heap.given) + View()[i][|old(View())[i]|..]
    {
      ghost var was := View();
      ghost var given := heap.given;
      while Count(i) < GROUP_MAX
        invariant Valid() && level == old(level) && Pending() == old(Pending())
        invariant GrownAt(was, View(), i)
        invariant heap.given == given + View()[i][|was[i]|..]
        decreases GROUP_MAX - Count(i)
      {
        ghost var prev := View();
        var p := heap.Calloc(size);
        Store(i, p);
        OneMoreSlot(was, prev, i, p, given);
      }
    }
  }

  /** The first n groups are empty, the others as they were. */
  ghost predicate Emptied(was: seq<Slots>, now: seq<Slots>, n: nat) {
    |now| == |was| && forall m :: 0 <= m < |now| ==> now[m] == if m < n then [] else was[m]
  }

  lemma OneMoreEmptied(was: seq<Slots>, now: seq<Slots>, n: nat, done: Slots)
    requires Emptied(was, now, n) && n < |was|
    ensures Emptied(was, now[n := []], n + 1)
    ensures done + ReversedFrom(was, n) + Reversed(now[n]) == done + ReversedFrom(was, n + 1)
  {
    assert (done + ReversedFrom(was, n)) + Reversed(now[n]) == done + (ReversedFrom(was, n) + Reversed(now[n]));
  }

  lemma AllEmptied(was: seq<Slots>, now: seq<Slots>)
    requires Emptied(was, now, GROUP_COUNT) && |now| == GROUP_COUNT
    ensures now == [[], [], [], []]
  {
  }

  /** Each group kept what it held and gained only blocks of its own size. */
  ghost predicate Grown(was: seq<Slots>, now: seq<Slots>) {
    && |was| == |now|
    && (forall i :: 0 <= i < |now| ==> was[i] <= now[i])
    && (forall i, k :: 0 <= i < |now| && |was[i]| <= k < |now[i]| && now[i][k].At? ==>
          now[i][k].block.size == Capacity(i))
  }

  /** Only group i grew. */
  ghost predicate GrownAt(was: seq<Slots>, now: seq<Slots>, i: nat) {
    && Grown(was, now)
    && forall m :: 0 <= m < |now| && m != i ==> now[m] == was[m]
  }

  lemma OneMoreSlot(was: seq<Slots>, now: seq<Slots>, i: nat, p: Ptr, given: Slots)
    requires GrownAt(was, now, i) && i < |now| && (p.At? ==> p.block.size == Capacity(i))
    ensures GrownAt(was, now[i := now[i] + [p]], i)
    ensures given + now[i][|was[i]|..] + [p] == given + (now[i] + [p])[|was[i]|..]
  {
    assert (now[i] + [p])[|was[i]|..] == now[i][|was[i]|..] + [p];
  }

  /** What the first n groups gained, one after the other. */
  ghost function Gained(was: seq<Slots>, now: seq<Slots>, n: nat): Slots
    requires n <= |was| == |now| && forall i :: 0 <= i < |was| ==> was[i] <= now[i]
  {
    if n == 0 then [] else Gained(was, now, n - 1) + now[n - 1][|was[n - 1]|..]
  }

  ghost predicate Untouched(was: seq<Slots>, now: seq<Slots>, n: nat) {
    |was| == |now| && forall i :: n <= i < |now| ==> now[i] == was[i]
  }

  lemma {:induction false} GainedBelow(was: seq<Slots>, prev: seq<Slots>, now: seq<Slots>, n: nat)
    requires n <= |was| && Grown(was, prev) && Grown(was, now)
    requires forall i :: 0 <= i < n ==> prev[i] == now[i]
    ensures Gained(was, prev, n) == Gained(was, now, n)
  {
    if n > 0 {
      GainedBelow(was, prev, now, n - 1);
    }
  }

  lemma OneMoreGained(was: seq<Slots>, prev: seq<Slots>, now: seq<Slots>, n: nat, given: Slots)
    requires n < |was| && Grown(was, prev) && Grown(was, now)
    requires Untouched(was, prev, n) && GrownAt(prev, now, n)
    ensures Untouched(was, now, n + 1)
    ensures given + Gained(was, prev, n) + now[n][|prev[n]|..] == given + Gained(was, now, n + 1)
  {
    GainedBelow(was, prev, now, n);
  }

  lemma OneMoreFull(was: seq<Slots>, prev: seq<Slots>, now: seq<Slots>, i: nat)
    requires Grown(was, prev) && FullBelow(prev, i)
    requires GrownAt(prev, now, i) && i < |now| && |now[i]| == GROUP_MAX
    ensures Grown(was, now) && FullBelow(now, i + 1)
  {
    forall m, k | 0 <= m < |now| && |was[m]| <= k < |now[m]| && now[m][k].At?
      ensures now[m][k].block.size == Capacity(m)
    {
      if k < |prev[m]| {
        assert now[m][k] == prev[m][k];
      }
    }
  }

  lemma GrownKeepsSizes(was: seq<Slots>, now: seq<Slots>)
    requires Grown(was, now)
    ensures WellSized(was) ==> WellSized(now)
  {
    forall i, k | WellSized(was) && 0 <= i < |now| && 0 <= k < |now[i]| && now[i][k].At?
      ensures now[i][k].block.size == Capacity(i)
    {
      if k < |was[i]| {
        assert now[i][k] == was[i][k];
      }
    }
  }

  /** The order in which the first n groups are freed. */
  ghost function ReversedFrom(gs: seq<Slots>, n: nat): Slots
    requires n <= |gs|
  {
    if n == 0 then [] else ReversedFrom(gs, n - 1) + Reversed(gs[n - 1])
  }
}
