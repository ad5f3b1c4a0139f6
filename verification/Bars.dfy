/** Compacting the six PCI base-address registers of a device into the RM's list of BARs. */
module Bars {

  // PCI Local Bus Specification 3.0, section 6.2.5.1: bits 2..1 of a memory BAR give its type.
  const ADDRESS_TYPE: bv8 := 0x06
  const ADDRESS_TYPE_64: bv8 := 0x04

  datatype Slot = Slot(register: bv32, size: bv32, flags: bv8)

  datatype Bar = Bar(offset: nat, address: bv64, size: bv64)

  predicate Is64(s: Slot) {
    s.flags & ADDRESS_TYPE == ADDRESS_TYPE_64
  }

  /** Where register i sits in configuration space. */
  function Offset(i: nat): nat {
    0x10 + 4 * i
  }

  /** The low word, with the high word or-ed in above it. */
  function Wide(low: bv32, high: bv32): bv64 {
    (low as bv64) | ((high as bv64) << 32)
  }

  lemma WideIsSum(low: bv32, high: bv32)
    ensures Wide(low, high) == (low as bv64) + (high as bv64) * 0x1_0000_0000
  {
  }

  // -- The decoder --

  /** The BAR that starts at slot i: one register, or a pair. */
  function BarAt(slots: seq<Slot>, i: nat): Bar
    requires i < |slots| && (Is64(slots[i]) ==> i + 1 < |slots|)
  {
    if Is64(slots[i]) then
      Bar(Offset(i), Wide(slots[i].register, slots[i + 1].register), Wide(slots[i].size, slots[i + 1].size))
    else
      Bar(Offset(i), slots[i].register as bv64, slots[i].size as bv64)
  }

  function After(slots: seq<Slot>, i: nat): nat
    requires i < |slots|
  {
    if Is64(slots[i]) then i + 2 else i + 1
  }

  /** The BARs that start at slot i or later. */
  function Decode(slots: seq<Slot>, i: nat): seq<Bar>
    decreases |slots| - i
  {
    if i >= |slots| || After(slots, i) > |slots| then []
    else [BarAt(slots, i)] + Decode(slots, After(slots, i))
  }

  function Kept(b: Bar): seq<Bar> {
    if b.size != 0 then [b] else []
  }

  function NonZero(bars: seq<Bar>): seq<Bar> {
    if bars == [] then [] else Kept(bars[0]) + NonZero(bars[1..])
  }

  /** Decoding from slot i on comes to a last slot that asks for a high word behind it. */
  predicate ReadsPast(slots: seq<Slot>, i: nat)
    decreases |slots| - i
  {
    i < |slots| && if !Is64(slots[i]) then ReadsPast(slots, i + 1)
                   else i + 1 == |slots| || ReadsPast(slots, i + 2)
  }

  /** The slots in the order in which they are consumed. */
  function Consumed(slots: seq<Slot>, i: nat): seq<nat>
    decreases |slots| - i
  {
    if i >= |slots| then []
    else if !Is64(slots[i]) then [i] + Consumed(slots, i + 1)
    else [i, i + 1] + Consumed(slots, i + 2)
  }

  /** Each slot is consumed exactly once, in order. */
  lemma {:induction false} EachSlotOnce(slots: seq<Slot>, i: nat)
    requires i <= |slots| && !ReadsPast(slots, i)
    ensures |Consumed(slots, i)| == |slots| - i
    ensures forall k :: 0 <= k < |slots| - i ==> Consumed(slots, i)[k] == i + k
    decreases |slots| - i
  {
    if i < |slots| {
      var head := if Is64(slots[i]) then [i, i + 1] else [i];
      var rest := Consumed(slots, i + |head|);
      EachSlotOnce(slots, i + |head|);
      assert Consumed(slots, i) == head + rest;
    }
  }

  // -- What the decoder finds, and where --

  /** A BAR starts at slot i and lies inside the registers. */
  predicate Complete(slots: seq<Slot>, i: nat) {
    i < |slots| && After(slots, i) <= |slots|
  }

  /** The slots at which a BAR starts. */
  function Starts(slots: seq<Slot>, i: nat): (r: seq<nat>)
    ensures |r| == |Decode(slots, i)|
    ensures forall k :: 0 <= k < |r| ==> i <= r[k] && Complete(slots, r[k])
    decreases |slots| - i
  {
    if !Complete(slots, i) then [] else [i] + Starts(slots, After(slots, i))
  }

  /** The BAR of the registers from slot `at` on: their place in the header, the low word, and the next
      register as high word exactly when bits 2..1 of the flags are 10. */
  ghost predicate StandsFor(bar: Bar, slots: seq<Slot>, at: nat)
    requires Complete(slots, at)
  {
    && bar.offset == 0x10 + 4 * at
    && if slots[at].flags & 6 == 4 then
         && at + 1 < |slots|
         && bar.address == (slots[at].register as bv64) + (slots[at + 1].register as bv64) * 0x1_0000_0000
         && bar.size == (slots[at].size as bv64) + (slots[at + 1].size as bv64) * 0x1_0000_0000
       else
         bar.address == slots[at].register as bv64 && bar.size == slots[at].size as bv64
  }

  lemma BarStandsForRegisters(slots: seq<Slot>, i: nat)
    requires Complete(slots, i)
    ensures StandsFor(BarAt(slots, i), slots, i)
  {
    if Is64(slots[i]) {
      WideIsSum(slots[i].register, slots[i + 1].register);
      WideIsSum(slots[i].size, slots[i + 1].size);
    }
  }

  lemma {:induction false} FoundAtStart(slots: seq<Slot>, i: nat, k: nat)
    requires k < |Decode(slots, i)|
    ensures StandsFor(Decode(slots, i)[k], slots, Starts(slots, i)[k])
    decreases |slots| - i
  {
    if k > 0 {
      FoundAtStart(slots, After(slots, i), k - 1);
      assert Decode(slots, i)[k] == Decode(slots, After(slots, i))[k - 1];
      assert Starts(slots, i)[k] == Starts(slots, After(slots, i))[k - 1];
    } else {
      BarStandsForRegisters(slots, i);
    }
  }

  /** A slot is the start of a BAR exactly when the unbroken run of marked slots before it is even:
      marked slots pair up from the beginning of their run. */
  lemma {:induction false} StartIff(slots: seq<Slot>, i: nat, k: nat)
    requires i <= k && Complete(slots, k) && TrailingMarks(slots[..i]) % 2 == 0
    ensures k in Starts(slots, i) <==> TrailingMarks(slots[..k]) % 2 == 0
    decreases |slots| - i
  {
    MarksOneOn(slots, i);
    if i < k {
      if Is64(slots[i]) {
        MarksOneOn(slots, i + 1);
      }
      var j := After(slots, i);
      if j <= k {
        StartIff(slots, j, k);
      } else {
        assert forall m :: 0 <= m < |Starts(slots, j)| ==> Starts(slots, j)[m] >= j;
      }
      assert k in Starts(slots, i) <==> k in Starts(slots, j);
    } else {
      assert Starts(slots, i)[0] == i;
    }
  }

  lemma MarksOneOn(slots: seq<Slot>, i: nat)
    requires i < |slots|
    ensures TrailingMarks(slots[..i + 1]) == if Is64(slots[i]) then 1 + TrailingMarks(slots[..i]) else 0
  {
    assert slots[..i + 1][..i] == slots[..i];
  }

  /** BARs are found in the order of their registers. */
  lemma {:induction false} StartsAscend(slots: seq<Slot>, i: nat, j: nat, k: nat)
    requires j < k < |Starts(slots, i)|
    ensures Starts(slots, i)[j] < Starts(slots, i)[k]
    decreases |slots| - i
  {
    var rest := Starts(slots, After(slots, i));
    assert Starts(slots, i) == [i] + rest;
    if j > 0 {
      StartsAscend(slots, After(slots, i), j - 1, k - 1);
    } else {
      assert Starts(slots, i)[k] == rest[k - 1] >= After(slots, i);
    }
  }

  /** The list that is kept: the BARs of non-zero size, each as often as it was there, in order. */
  lemma {:induction false} NonZeroIff(bars: seq<Bar>, b: Bar)
    ensures multiset(NonZero(bars))[b] == if b.size != 0 then multiset(bars)[b] else 0
  {
    if bars != [] {
      NonZeroIff(bars[1..], b);
      assert bars == [bars[0]] + bars[1..];
    }
  }

  /** Offsets of the kept BARs ascend, as those of all BARs do. */
  lemma {:induction false} NonZeroAscends(bars: seq<Bar>)
    requires forall j, k :: 0 <= j < k < |bars| ==> bars[j].offset < bars[k].offset
    ensures forall j, k :: 0 <= j < k < |NonZero(bars)| ==> NonZero(bars)[j].offset < NonZero(bars)[k].offset
    ensures forall j :: 0 <= j < |NonZero(bars)| ==> NonZero(bars)[j] in bars
  {
    if bars != [] {
      NonZeroAscends(bars[1..]);
    }
  }

  // -- When it stays inside the registers --

  /** How many slots at the end are marked 64-bit without a break. */
  function TrailingMarks(slots: seq<Slot>): nat {
    if slots == [] || !Is64(slots[|slots| - 1]) then 0 else 1 + TrailingMarks(slots[..|slots| - 1])
  }

  ghost predicate AllMarked(slots: seq<Slot>) {
    forall k :: 0 <= k < |slots| ==> Is64(slots[k])
  }

  lemma {:induction false} TrailingMarksWithoutFirst(slots: seq<Slot>)
    requires slots != []
    ensures TrailingMarks(slots)
         == TrailingMarks(slots[1..]) + (if AllMarked(slots) then 1 else 0)
    ensures TrailingMarks(slots) <= |slots|
    ensures AllMarked(slots) <==> TrailingMarks(slots) == |slots|
  {
    if |slots| == 1 {
      assert slots[..0] == [];
    } else {
      var front := slots[..|slots| - 1];
      TrailingMarksWithoutFirst(front);
      assert slots[1..][..|slots| - 2] == front[1..];
      assert AllMarked(slots) <==> AllMarked(front) && Is64(slots[|slots| - 1]);
    }
  }

  /** An unmarked slot is always followed by the start of a BAR, so all that matters is whether the
      unbroken run of marked slots at the end has odd length. */
  lemma {:induction false} ReadsPastIff(slots: seq<Slot>, i: nat)
    requires i <= |slots|
    ensures ReadsPast(slots, i) <==> TrailingMarks(slots[i..]) % 2 == 1
    decreases |slots| - i
  {
    if i < |slots| {
      var tail := slots[i..];
      TrailingMarksWithoutFirst(tail);
      assert tail[1..] == slots[i + 1..];
      if !Is64(slots[i]) {
        assert !AllMarked(tail) by { assert !Is64(tail[0]); }
        ReadsPastIff(slots, i + 1);
      } else if i + 1 < |slots| {
        TrailingMarksWithoutFirst(tail[1..]);
        assert tail[1..][1..] == slots[i + 2..];
        assert AllMarked(tail) <==> AllMarked(tail[1..]);
        ReadsPastIff(slots, i + 2);
      } else {
        assert AllMarked(tail);
        assert tail[1..] == [];
      }
    }
  }

  /** Six registers of which only the last is marked. */
  predicate OnlyLastMarked(slots: seq<Slot>) {
    |slots| == 6 && Is64(slots[5]) && forall k :: 0 <= k < 5 ==> !Is64(slots[k])
  }

  /** The input that shows the read out of range. */
  lemma LastMarkReadsPast(slots: seq<Slot>)
    requires OnlyLastMarked(slots)
    ensures ReadsPast(slots, 0)
  {
    assert slots[0..] == slots;
    assert slots[..5][..4] == slots[..4];
    assert TrailingMarks(slots[..5]) == 0;
    ReadsPastIff(slots, 0);
  }

  // -- The loop --

  lemma {:induction false} NonZeroOfStep(bar: Bar, rest: seq<Bar>)
    ensures NonZero([bar] + rest) == Kept(bar) + NonZero(rest)
  {
    assert ([bar] + rest)[1..] == rest;
  }

  /** Taken off the non-zero BARs from slot i on, `found` leaves those from slot `at` on. */
  ghost predicate Progress(slots: seq<Slot>, found: seq<Bar>, at: nat) {
    && at <= |slots|
    && NonZero(Decode(slots, 0)) == found + NonZero(Decode(slots, at))
    && (ReadsPast(slots, 0) <==> ReadsPast(slots, at))
  }

  lemma OneBarOn(slots: seq<Slot>, found: seq<Bar>, at: nat)
    requires Progress(slots, found, at) && at < |slots|
    ensures After(slots, at) > |slots| ==> ReadsPast(slots, 0)
    ensures After(slots, at) <= |slots| ==>
              Progress(slots, found + Kept(BarAt(slots, at)), After(slots, at))
  {
    var next := After(slots, at);
    ReadsPastOneOn(slots, at);
    if next <= |slots| {
      var b, rest := BarAt(slots, at), Decode(slots, next);
      assert Decode(slots, at) == [b] + rest;
      NonZeroOfStep(b, rest);
      assert found + (Kept(b) + NonZero(rest)) == (found + Kept(b)) + NonZero(rest);
    }
  }

  lemma ReadsPastOneOn(slots: seq<Slot>, at: nat)
    requires at < |slots|
    ensures ReadsPast(slots, at) <==> After(slots, at) > |slots| || ReadsPast(slots, After(slots, at))
  {
  }

  lemma Finished(slots: seq<Slot>, found: seq<Bar>)
    requires Progress(slots, found, |slots|)
    ensures found == NonZero(Decode(slots, 0)) && !ReadsPast(slots, 0)
  {
  }

  /** The head of the loop body: the low word, and the high word behind it when there is one. */
  method ReadBar(slots: seq<Slot>, start: nat) returns (bar: nat, address: bv64, size: bv64)
    requires start < |slots|
    ensures bar == After(slots, start)
    ensures bar <= |slots| ==> Bar(Offset(start), address, size) == BarAt(slots, start)
  {
    bar := start;
    address, size := slots[bar].register as bv64, slots[bar].size as bv64;
    if Is64(slots[bar]) {
      bar := bar + 1;
      if bar < |slots| {
        address := address | ((slots[bar].register as bv64) << 32);
        size := size | ((slots[bar].size as bv64) << 32);
      }
    }
    bar := bar + 1;
  }

  /** The first entries of a table of the given length are the BARs found so far, as many as
      there is room for; the others are as they were. */
  ghost predicate Filled(table: seq<Bar>, was: seq<Bar>, found: seq<Bar>, current: nat) {
    && |table| == |was|
    && current == (if |found| < |table| then |found| else |table|)
    && table == found[..current] + was[current..]
  }

  method Record(bars: array<Bar>, current: nat, b: Bar, ghost was: seq<Bar>, ghost found: seq<Bar>) returns (next: nat)
    requires Filled(bars[..], was, found, current)
    modifies bars
    ensures Filled(bars[..], was, found + [b], next)
  {
    next := current;
    if current < bars.Length {
      bars[current] := b;
      next := current + 1;
    }
  }

  /** The loop of NvHaikuDevice::Init over `nv->bars`. False where the source reads a register
      behind the last one. */
  method Compact(slots: seq<Slot>, bars: array<Bar>) returns (inRange: bool)
    modifies bars
    ensures inRange <==> !ReadsPast(slots, 0)
    ensures inRange ==>
              exists n: nat :: Filled(bars[..], old(bars[..]), NonZero(Decode(slots, 0)), n)
  {
    var current, bar := 0, 0;
    ghost var found: seq<Bar> := [];
    ghost var was := bars[..];
    while bar < |slots|
      invariant Progress(slots, found, bar)
      invariant Filled(bars[..], was, found, current)
      decreases |slots| - bar
    {
      var start := bar;
      var address, size;
      bar, address, size := ReadBar(slots, start);
      OneBarOn(slots, found, start);
      if bar > |slots| {
        return false;
      }
      if size != 0 {
        var b := Bar(Offset(start), address, size);
        current := Record(bars, current, b, was, found);
        found := found + Kept(b);
      } else {
        assert found == found + Kept(BarAt(slots, start));
      }
    }
    Finished(slots, found);
    inRange := true;
    assert Filled(bars[..], was, NonZero(Decode(slots, 0)), current);
  }

  /** The loop on that input, whatever the registers and sizes hold and however long the table is. */
  method CompactOnlyLastMarked(slots: seq<Slot>, bars: array<Bar>) returns (inRange: bool)
    requires OnlyLastMarked(slots)
    modifies bars
    ensures !inRange
  {
    LastMarkReadsPast(slots);
    inRange := Compact(slots, bars);
  }
}
