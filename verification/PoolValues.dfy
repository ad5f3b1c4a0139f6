/** The contents of the interrupt-safe pool as values, its allocation rule, and the exact
    condition under which a run of allocations never underflows. */
module PoolValues {
  import opened SizeClasses

  /** One heap allocation: an identity that calloc never repeats, and the size asked for. */
  datatype Block = Block(id: nat, size: nat)

  /** What a pool slot or an allocation call yields. */
  datatype Ptr = Null | At(block: Block)

  type Slots = seq<Ptr>

  function Last(s: Slots): Ptr
    requires s != []
  {
    s[|s| - 1]
  }

  function Front(s: Slots): Slots
    requires s != []
  {
    s[..|s| - 1]
  }

  /** Smallest fit with spill-over: one slot is taken from the top of each non-empty group from
      class i on until one of them holds a block; empty slots met on the way are lost. */
  function AllocFrom(gs: seq<Slots>, i: nat): (r: (seq<Slots>, Ptr))
    ensures |r.0| == |gs|
    decreases |gs| - i
  {
    if i >= |gs| then (gs, Null)
    else if gs[i] == [] then AllocFrom(gs, i + 1)
    else
      var gs' := gs[i := Front(gs[i])];
      if Last(gs[i]).At? then (gs', Last(gs[i])) else AllocFrom(gs', i + 1)
  }

  /** The group the block comes from, |gs| when there is none. */
  function Source(gs: seq<Slots>, i: nat): (k: nat)
    requires i <= |gs|
    ensures i <= k <= |gs|
    ensures k < |gs| ==> gs[k] != [] && Last(gs[k]).At?
    ensures forall m :: i <= m < k ==> gs[m] == [] || Last(gs[m]).Null?
    decreases |gs| - i
  {
    if i == |gs| || (gs[i] != [] && Last(gs[i]).At?) then i else Source(gs, i + 1)
  }

  /** What an allocation does to the groups, slot by slot. */
  lemma {:induction false} AllocFromEffect(gs: seq<Slots>, i: nat)
    requires i <= |gs|
    ensures var (gs', p) := AllocFrom(gs, i);
            var k := Source(gs, i);
            && (p.At? <==> k < |gs|)
            && (k < |gs| ==> p == Last(gs[k]) && gs'[k] == Front(gs[k]))
            && (forall m :: 0 <= m < |gs| && (m < i || m > k) ==> gs'[m] == gs[m])
            && (forall m :: i <= m < k ==> gs'[m] == if gs[m] == [] then [] else Front(gs[m]))
    decreases |gs| - i
  {
    if i < |gs| {
      if gs[i] == [] {
        AllocFromEffect(gs, i + 1);
      } else if Last(gs[i]).Null? {
        var gs1 := gs[i := Front(gs[i])];
        SourceDependsAbove(gs, gs1, i + 1);
        AllocFromEffect(gs1, i + 1);
        assert AllocFrom(gs, i) == AllocFrom(gs1, i + 1);
      } else {
        assert Source(gs, i) == i;
      }
    }
  }

  lemma {:induction false} SourceDependsAbove(gs: seq<Slots>, gs': seq<Slots>, i: nat)
    requires i <= |gs| == |gs'|
    requires forall m :: i <= m < |gs| ==> gs[m] == gs'[m]
    ensures Source(gs, i) == Source(gs', i)
    decreases |gs| - i
  {
    if i < |gs| {
      SourceDependsAbove(gs, gs', i + 1);
    }
  }

  /** Every block of group i has the capacity of class i. */
  ghost predicate WellSized(gs: seq<Slots>) {
    forall i, k :: 0 <= i < |gs| && 0 <= k < |gs[i]| && gs[i][k].At? ==> gs[i][k].block.size == Capacity(i)
  }

  /** A block handed out is large enough, and the groups stay well sized. */
  lemma AllocIsLargeEnough(gs: seq<Slots>, size: nat)
    requires WellSized(gs)
    ensures var (gs', p) := AllocFrom(gs, ClassOf(size));
            WellSized(gs') && (p.At? ==> p.block.size >= size)
  {
    var n := ClassOf(size);
    if n <= |gs| {
      AllocFromEffect(gs, n);
      var k := Source(gs, n);
      CapacityGrows(n, k);
    }
  }

  // -- When a run of allocations never underflows --

  ghost predicate NoNulls(gs: seq<Slots>) {
    forall i, k :: 0 <= i < |gs| && 0 <= k < |gs[i]| ==> gs[i][k].At?
  }

  /** The requested sizes are all served, in order, without a refill. */
  ghost predicate Served(gs: seq<Slots>, sizes: seq<nat>)
    decreases |sizes|
  {
    sizes == [] ||
    var (gs', p) := AllocFrom(gs, ClassOf(sizes[0]));
    p.At? && Served(gs', sizes[1..])
  }

  /** Number of requests of class c or higher. */
  function Demand(sizes: seq<nat>, c: nat): nat {
    if sizes == [] then 0 else (if ClassOf(sizes[0]) >= c then 1 else 0) + Demand(sizes[1..], c)
  }

  /** Number of slots in groups c and higher. */
  function Supply(gs: seq<Slots>, c: nat): nat
    decreases |gs| - c
  {
    if c >= |gs| then 0 else |gs[c]| + Supply(gs, c + 1)
  }

  lemma {:induction false} SupplyAfterTake(gs: seq<Slots>, k: nat, c: nat)
    requires k < |gs| && gs[k] != []
    ensures Supply(gs[k := Front(gs[k])], c) == Supply(gs, c) - (if c <= k then 1 else 0)
    decreases |gs| - c
  {
    if c < |gs| {
      SupplyAfterTake(gs, k, c + 1);
    }
  }

  lemma {:induction false} SupplyOverEmpty(gs: seq<Slots>, i: nat, c: nat)
    requires i <= c <= |gs|
    requires forall m :: i <= m < c ==> gs[m] == []
    ensures Supply(gs, i) == Supply(gs, c)
    decreases c - i
  {
    if i < c {
      SupplyOverEmpty(gs, i + 1, c);
    }
  }

  lemma {:induction false} DemandIsAntitone(sizes: seq<nat>, c: nat, d: nat)
    requires c <= d
    ensures Demand(sizes, d) <= Demand(sizes, c)
  {
    if sizes != [] {
      DemandIsAntitone(sizes[1..], c, d);
    }
  }

  ghost predicate Enough(gs: seq<Slots>, sizes: seq<nat>) {
    forall c: nat :: c <= |gs| ==> Demand(sizes, c) <= Supply(gs, c)
  }

  /** Without empty slots, an allocation is one take from the first non-empty group. */
  lemma AllocWithoutNulls(gs: seq<Slots>, i: nat)
    requires NoNulls(gs) && i <= |gs|
    ensures var k := Source(gs, i);
            && (forall m :: i <= m < k ==> gs[m] == [])
            && AllocFrom(gs, i) == if k < |gs| then (gs[k := Front(gs[k])], Last(gs[k])) else (gs, Null)
  {
    AllocFromEffect(gs, i);
    var k := Source(gs, i);
    var gs' := AllocFrom(gs, i).0;
    if k < |gs| {
      assert gs' == gs[k := Front(gs[k])];
    } else {
      assert gs' == gs;
    }
  }

  /** One allocation keeps the balance between supply and demand, in both directions. */
  lemma EnoughForOneMore(gs: seq<Slots>, sizes: seq<nat>, k: nat)
    requires sizes != [] && ClassOf(sizes[0]) <= k < |gs| && gs[k] != []
    requires forall m :: ClassOf(sizes[0]) <= m < k ==> gs[m] == []
    ensures Enough(gs, sizes) <==> Enough(gs[k := Front(gs[k])], sizes[1..])
  {
    var n := ClassOf(sizes[0]);
    var gs' := gs[k := Front(gs[k])];
    forall c: nat { SupplyAfterTake(gs, k, c); }
    if Enough(gs, sizes) {
      forall c: nat | c <= |gs'| ensures Demand(sizes[1..], c) <= Supply(gs', c) {
        if n < c <= k {
          DemandIsAntitone(sizes[1..], n, c);
          SupplyOverEmpty(gs, n, c);
          assert Demand(sizes, n) <= Supply(gs, n);
        } else {
          assert Demand(sizes, c) <= Supply(gs, c);
        }
      }
    }
    if Enough(gs', sizes[1..]) {
      forall c: nat | c <= |gs| ensures Demand(sizes, c) <= Supply(gs, c) {
        assert Demand(sizes[1..], c) <= Supply(gs', c);
      }
    }
  }

  /** The exact no-underflow theorem, for any filling of the groups: every request is served if
      and only if no class and those above it are asked for more blocks than they hold. */
  lemma {:induction false} ServedIffEnough(gs: seq<Slots>, sizes: seq<nat>)
    requires NoNulls(gs)
    ensures Served(gs, sizes) <==> Enough(gs, sizes)
    decreases |sizes|
  {
    if sizes != [] {
      var n := ClassOf(sizes[0]);
      if n > |gs| {
        assert Demand(sizes, |gs|) >= 1;
        assert AllocFrom(gs, n) == (gs, Null);
      } else {
        AllocWithoutNulls(gs, n);
        var k := Source(gs, n);
        if k < |gs| {
          EnoughForOneMore(gs, sizes, k);
          ServedIffEnough(gs[k := Front(gs[k])], sizes[1..]);
        } else {
          SupplyOverEmpty(gs, n, |gs|);
          assert Demand(sizes, n) >= 1 > Supply(gs, n);
        }
      }
    }
  }

  ghost predicate FullBelow(gs: seq<Slots>, n: nat) {
    forall i :: 0 <= i < |gs| && i < n ==> |gs[i]| == GROUP_MAX
  }

  ghost predicate Full(gs: seq<Slots>) {
    |gs| == GROUP_COUNT && FullBelow(gs, GROUP_COUNT)
  }

  /** At most 16 requests of class 3 or higher, 32 of class 2 or higher, and so on; none of
      class 4 or higher. */
  ghost predicate WithinBudget(sizes: seq<nat>) {
    forall c: nat :: c <= GROUP_COUNT ==> Demand(sizes, c) <= GROUP_MAX * (GROUP_COUNT - c)
  }

  lemma SupplyOfFull(gs: seq<Slots>, c: nat)
    requires Full(gs) && c <= GROUP_COUNT
    ensures Supply(gs, c) == GROUP_MAX * (GROUP_COUNT - c)
    decreases GROUP_COUNT - c
  {
    if c < GROUP_COUNT {
      SupplyOfFull(gs, c + 1);
    }
  }

  /** For full groups the balance of supply and demand is the budget. */
  lemma EnoughOfFull(gs: seq<Slots>, sizes: seq<nat>)
    requires Full(gs)
    ensures Enough(gs, sizes) <==> WithinBudget(sizes)
  {
    forall c: nat | c <= GROUP_COUNT { SupplyOfFull(gs, c); }
    if WithinBudget(sizes) {
      forall c: nat | c <= |gs| ensures Demand(sizes, c) <= Supply(gs, c) {
        assert Demand(sizes, c) <= GROUP_MAX * (GROUP_COUNT - c);
      }
    }
    if Enough(gs, sizes) {
      forall c: nat | c <= GROUP_COUNT ensures Demand(sizes, c) <= GROUP_MAX * (GROUP_COUNT - c) {
        assert Demand(sizes, c) <= Supply(gs, c);
      }
    }
  }

  /** The theorem for a freshly maintained pool. */
  lemma FullPoolNeverUnderflowsIff(gs: seq<Slots>, sizes: seq<nat>)
    requires NoNulls(gs) && Full(gs)
    ensures Served(gs, sizes) <==> WithinBudget(sizes)
  {
    ServedIffEnough(gs, sizes);
    EnoughOfFull(gs, sizes);
  }

  // -- Smallest fit is optimal --

  function Uses(place: seq<nat>, i: nat): nat {
    if place == [] then 0 else (if place[0] == i then 1 else 0) + Uses(place[1..], i)
  }

  function UsesFrom(place: seq<nat>, c: nat): nat {
    if place == [] then 0 else (if place[0] >= c then 1 else 0) + UsesFrom(place[1..], c)
  }

  /** Some way of giving every request a slot of a large enough group, no slot twice. */
  ghost predicate Placement(gs: seq<Slots>, sizes: seq<nat>, place: seq<nat>) {
    && |place| == |sizes|
    && (forall k :: 0 <= k < |place| ==> ClassOf(sizes[k]) <= place[k] < |gs|)
    && (forall i :: 0 <= i < |gs| ==> Uses(place, i) <= |gs[i]|)
  }

  lemma {:induction false} UsesFromSplits(place: seq<nat>, c: nat)
    ensures UsesFrom(place, c) == Uses(place, c) + UsesFrom(place, c + 1)
  {
    if place != [] {
      UsesFromSplits(place[1..], c);
    }
  }

  lemma {:induction false} UsesFromBound(gs: seq<Slots>, place: seq<nat>, c: nat)
    requires c <= |gs|
    requires forall k :: 0 <= k < |place| ==> place[k] < |gs|
    requires forall i :: 0 <= i < |gs| ==> Uses(place, i) <= |gs[i]|
    ensures UsesFrom(place, c) <= Supply(gs, c)
    decreases |gs| - c
  {
    if c == |gs| {
      NoUseAbove(place, c);
    } else {
      UsesFromSplits(place, c);
      UsesFromBound(gs, place, c + 1);
    }
  }

  lemma {:induction false} NoUseAbove(place: seq<nat>, c: nat)
    requires forall k :: 0 <= k < |place| ==> place[k] < c
    ensures UsesFrom(place, c) == 0
  {
    if place != [] {
      NoUseAbove(place[1..], c);
    }
  }

  lemma {:induction false} DemandBelowUses(sizes: seq<nat>, place: seq<nat>, c: nat)
    requires |place| == |sizes|
    requires forall k :: 0 <= k < |place| ==> ClassOf(sizes[k]) <= place[k]
    ensures Demand(sizes, c) <= UsesFrom(place, c)
  {
    if sizes != [] {
      DemandBelowUses(sizes[1..], place[1..], c);
    }
  }

  /** The placement that smallest fit itself chooses. */
  lemma {:induction false} PlacementOfRun(gs: seq<Slots>, sizes: seq<nat>) returns (place: seq<nat>)
    requires NoNulls(gs) && Served(gs, sizes)
    ensures Placement(gs, sizes, place)
    decreases |sizes|
  {
    if sizes == [] {
      place := [];
    } else {
      var n := ClassOf(sizes[0]);
      AllocWithoutNulls(gs, n);
      var k := Source(gs, n);
      var gs' := gs[k := Front(gs[k])];
      var rest := PlacementOfRun(gs', sizes[1..]);
      place := [k] + rest;
      assert place[1..] == rest;
      forall i | 0 <= i < |gs| ensures Uses(place, i) <= |gs[i]| {
        assert Uses(rest, i) <= |gs'[i]|;
      }
    }
  }

  /** Smallest fit with spill-over serves every list of requests that any choice of groups,
      made with full knowledge of the list, could serve; and only those. */
  lemma SmallestFitIsOptimal(gs: seq<Slots>, sizes: seq<nat>)
    requires NoNulls(gs)
    ensures Served(gs, sizes) <==> exists place :: Placement(gs, sizes, place)
  {
    if Served(gs, sizes) {
      var place := PlacementOfRun(gs, sizes);
    }
    if exists place :: Placement(gs, sizes, place) {
      var place :| Placement(gs, sizes, place);
      forall c: nat | c <= |gs| ensures Demand(sizes, c) <= Supply(gs, c) {
        DemandBelowUses(sizes, place, c);
        UsesFromBound(gs, place, c);
      }
      ServedIffEnough(gs, sizes);
    }
  }
}
