/** ProposeMode: an exact match in the mode list, or the listed mode nearest in refresh rate. */
module ModeSelection {
  import opened Timings

  /** display_mode. */
  datatype DisplayMode = DisplayMode(
    timing: HaikuTiming, space: nat, virtualWidth: u16, virtualHeight: u16,
    hDisplayStart: u16, vDisplayStart: u16)

  /** DivideError: the source divides by h_total * v_total of the target, which was zero. */
  datatype Status = Ok | BadValue | Error | DivideError

  /** Every size and the clock lie between the bounds; flags and colour space do not matter. */
  ghost predicate WithinBounds(mode: DisplayMode, low: DisplayMode, high: DisplayMode) {
    && low.timing.hDisplay <= mode.timing.hDisplay <= high.timing.hDisplay
    && low.timing.hSyncStart <= mode.timing.hSyncStart <= high.timing.hSyncStart
    && low.timing.hSyncEnd <= mode.timing.hSyncEnd <= high.timing.hSyncEnd
    && low.timing.hTotal <= mode.timing.hTotal <= high.timing.hTotal
    && low.timing.vDisplay <= mode.timing.vDisplay <= high.timing.vDisplay
    && low.timing.vSyncStart <= mode.timing.vSyncStart <= high.timing.vSyncStart
    && low.timing.vSyncEnd <= mode.timing.vSyncEnd <= high.timing.vSyncEnd
    && low.timing.vTotal <= mode.timing.vTotal <= high.timing.vTotal
    && low.timing.pixelClock <= mode.timing.pixelClock <= high.timing.pixelClock
    && low.virtualWidth <= mode.virtualWidth <= high.virtualWidth
    && low.virtualHeight <= mode.virtualHeight <= high.virtualHeight
  }

  method IsDisplayModeWithinBounds(mode: DisplayMode, low: DisplayMode, high: DisplayMode) returns (within: bool)
    ensures within <==> WithinBounds(mode, low, high)
  {
    var t, l, h := mode.timing, low.timing, high.timing;
    if t.hDisplay < l.hDisplay || t.hDisplay > h.hDisplay
      || t.hSyncStart < l.hSyncStart || t.hSyncStart > h.hSyncStart
      || t.hSyncEnd < l.hSyncEnd || t.hSyncEnd > h.hSyncEnd
      || t.hTotal < l.hTotal || t.hTotal > h.hTotal
    {
      return false;
    }
    if t.vDisplay < l.vDisplay || t.vDisplay > h.vDisplay
      || t.vSyncStart < l.vSyncStart || t.vSyncStart > h.vSyncStart
      || t.vSyncEnd < l.vSyncEnd || t.vSyncEnd > h.vSyncEnd
      || t.vTotal < l.vTotal || t.vTotal > h.vTotal
    {
      return false;
    }
    if t.pixelClock > h.pixelClock || t.pixelClock < l.pixelClock {
      return false;
    }
    if mode.virtualWidth > high.virtualWidth || mode.virtualWidth < low.virtualWidth {
      return false;
    }
    if mode.virtualHeight > high.virtualHeight || mode.virtualHeight < low.virtualHeight {
      return false;
    }
    return true;
  }

  predicate Listed(modes: seq<NvTiming>, t: HaikuTiming) {
    exists i :: 0 <= i < |modes| && ToHaiku(modes[i]) == t
  }

  /** The source compares the mode in Haiku's form. */
  predicate Candidate(n: NvTiming, t: HaikuTiming) {
    var c := ToHaiku(n);
    c.hDisplay == t.hDisplay && c.vDisplay == t.vDisplay && c.flags & INTERLACED == t.flags & INTERLACED
  }

  /** Same resolution and same interlacing. */
  ghost predicate SameKind(n: NvTiming, t: HaikuTiming) {
    n.hVisible == t.hDisplay && n.vVisible == t.vDisplay && (n.interlaced <==> IsInterlaced(t))
  }

  lemma CandidateIff(n: NvTiming, t: HaikuTiming)
    ensures Candidate(n, t) <==> SameKind(n, t)
  {
    FlagsAreKnown(n);
    SameInterlace(ToHaiku(n).flags, t.flags);
  }

  /** The masked flags agree exactly when the bit is the same. */
  lemma SameInterlace(f: bv32, g: bv32)
    ensures f & INTERLACED == g & INTERLACED <==> (INTERLACED & f != 0 <==> INTERLACED & g != 0)
  {
    assert f & INTERLACED == 0 || f & INTERLACED == INTERLACED;
    assert g & INTERLACED == 0 || g & INTERLACED == INTERLACED;
    assert INTERLACED & f == f & INTERLACED;
    assert INTERLACED & g == g & INTERLACED;
  }

  function Abs(x: int): (r: nat)
    ensures r == x || r == -x
  {
    if x >= 0 then x else -x
  }

  /** Mode b is of the kind asked for, none of them is nearer to the refresh rate asked for, and none
      before it is as near. */
  ghost predicate IsBest(modes: seq<NvTiming>, t: HaikuTiming, b: nat)
    requires FrameTotal(t) > 0
  {
    && b < |modes| && SameKind(modes[b], t)
    && (forall i :: 0 <= i < |modes| && SameKind(modes[i], t) ==>
          Abs(modes[b].rrx1k - CalcRefreshRate(t)) <= Abs(modes[i].rrx1k - CalcRefreshRate(t)))
    && (forall i :: 0 <= i < b && SameKind(modes[i], t) ==>
          Abs(modes[b].rrx1k - CalcRefreshRate(t)) < Abs(modes[i].rrx1k - CalcRefreshRate(t)))
  }

  ghost function Verdict(mode: DisplayMode, low: DisplayMode, high: DisplayMode): Status {
    if WithinBounds(mode, low, high) then Ok else BadValue
  }

  /** What ProposeMode promises: status and the target afterwards. */
  ghost predicate Proposal(modes: seq<NvTiming>, target: DisplayMode, low: DisplayMode, high: DisplayMode,
                           status: Status, result: DisplayMode) {
    if Listed(modes, target.timing) then
      result == target && status == Verdict(target, low, high)
    else if FrameTotal(target.timing) == 0 then
      result == target && status == DivideError
    else if NoCandidate(modes, target.timing) then
      result == target && status == Error
    else
      exists b: nat :: TakesBest(modes, target, low, high, status, result, b)
  }

  ghost predicate NoCandidate(modes: seq<NvTiming>, t: HaikuTiming) {
    forall i :: 0 <= i < |modes| ==> !SameKind(modes[i], t)
  }

  /** The target gets the timing of the best mode and is then held against the bounds. */
  ghost predicate TakesBest(modes: seq<NvTiming>, target: DisplayMode, low: DisplayMode, high: DisplayMode,
                            status: Status, result: DisplayMode, b: nat)
    requires FrameTotal(target.timing) > 0
  {
    && IsBest(modes, target.timing, b)
    && result == target.(timing := ToHaiku(modes[b]))
    && status == Verdict(result, low, high)
  }

  method ProposeMode(modes: seq<NvTiming>, target: DisplayMode, low: DisplayMode, high: DisplayMode)
    returns (status: Status, result: DisplayMode)
    ensures Proposal(modes, target, low, high, status, result)
  {
    result := target;
    var exact := FindExact(modes, target.timing);
    if !exact {
      if FrameTotal(target.timing) == 0 {
        return DivideError, target;
      }
      var best := FindNearest(modes, target.timing);
      if best < 0 {
        return Error, target;
      }
      result := target.(timing := ToHaiku(modes[best]));
      assert TakesBest(modes, target, low, high, Verdict(result, low, high), result, best);
    }
    var within := IsDisplayModeWithinBounds(result, low, high);
    status := if within then Ok else BadValue;
  }

  /** The first loop. */
  method FindExact(modes: seq<NvTiming>, t: HaikuTiming) returns (found: bool)
    ensures found <==> Listed(modes, t)
  {
    var i := 0;
    while i < |modes|
      invariant 0 <= i <= |modes|
      invariant forall j :: 0 <= j < i ==> ToHaiku(modes[j]) != t
    {
      if ToHaiku(modes[i]) == t {
        return true;
      }
      i := i + 1;
    }
    return false;
  }

  /** The second loop; -1 when there is no candidate. */
  method FindNearest(modes: seq<NvTiming>, t: HaikuTiming) returns (best: int)
    requires FrameTotal(t) > 0
    ensures best < 0 ==> NoCandidate(modes, t)
    ensures best >= 0 ==> IsBest(modes, t, best)
  {
    var rate := CalcRefreshRate(t);
    best := -1;
    var i := 0;
    while i < |modes|
      invariant 0 <= i <= |modes| && -1 <= best < i
      invariant best < 0 ==> NoCandidate(modes[..i], t)
      invariant best >= 0 ==> IsBest(modes[..i], t, best)
    {
      CandidateIff(modes[i], t);
      BestOfOneMore(modes[..i], modes[i], t, best);
      assert modes[..i + 1] == modes[..i] + [modes[i]];
      if Candidate(modes[i], t) {
        if best < 0 || Abs(modes[i].rrx1k - rate) < Abs(modes[best].rrx1k - rate) {
          best := i;
        }
      }
      i := i + 1;
    }
    assert modes[..|modes|] == modes;
  }

  lemma BestOfOneMore(ms: seq<NvTiming>, n: NvTiming, t: HaikuTiming, best: int)
    requires FrameTotal(t) > 0 && best < |ms|
    requires if best < 0 then NoCandidate(ms, t) else IsBest(ms, t, best)
    ensures !SameKind(n, t) ==> if best < 0 then NoCandidate(ms + [n], t) else IsBest(ms + [n], t, best)
    ensures SameKind(n, t) ==>
              var rate := CalcRefreshRate(t);
              if best < 0 || Abs(n.rrx1k - rate) < Abs(ms[best].rrx1k - rate) then IsBest(ms + [n], t, |ms|)
              else IsBest(ms + [n], t, best)
  {
  }

  // -- What follows from the promise --

  lemma OneBest(modes: seq<NvTiming>, t: HaikuTiming, b1: nat, b2: nat)
    requires FrameTotal(t) > 0 && IsBest(modes, t, b1) && IsBest(modes, t, b2)
    ensures b1 == b2
  {
  }

  /** The promise leaves no choice. */
  lemma ProposalIsUnique(modes: seq<NvTiming>, target: DisplayMode, low: DisplayMode, high: DisplayMode,
                         s1: Status, r1: DisplayMode, s2: Status, r2: DisplayMode)
    requires Proposal(modes, target, low, high, s1, r1) && Proposal(modes, target, low, high, s2, r2)
    ensures s1 == s2 && r1 == r2
  {
    if !Listed(modes, target.timing) && FrameTotal(target.timing) != 0 && !NoCandidate(modes, target.timing) {
      var b1: nat :| TakesBest(modes, target, low, high, s1, r1, b1);
      var b2: nat :| TakesBest(modes, target, low, high, s2, r2, b2);
      OneBest(modes, target.timing, b1, b2);
    }
  }

  /** The source divides by zero exactly when the target is not listed and its totals multiply to
      zero. */
  lemma DividesIff(modes: seq<NvTiming>, target: DisplayMode, low: DisplayMode, high: DisplayMode,
                   status: Status, result: DisplayMode)
    requires Proposal(modes, target, low, high, status, result)
    ensures status == DivideError <==> FrameTotal(target.timing) == 0 && !Listed(modes, target.timing)
  {
    if !Listed(modes, target.timing) && FrameTotal(target.timing) != 0 && !NoCandidate(modes, target.timing) {
      var b: nat :| TakesBest(modes, target, low, high, status, result, b);
    }
  }

  /** And it fails for want of a mode exactly when none has the resolution and interlacing asked for;
      in all other cases the bounds decide. */
  lemma ErrorIff(modes: seq<NvTiming>, target: DisplayMode, low: DisplayMode, high: DisplayMode,
                 status: Status, result: DisplayMode)
    requires Proposal(modes, target, low, high, status, result)
    ensures status == Error <==>
              && FrameTotal(target.timing) != 0 && !Listed(modes, target.timing)
              && forall i :: 0 <= i < |modes| ==> !SameKind(modes[i], target.timing)
    ensures status == Error || status == DivideError ==> result == target
    ensures status == Ok || status == BadValue ==> (status == Ok <==> WithinBounds(result, low, high))
  {
    if !Listed(modes, target.timing) && FrameTotal(target.timing) != 0 && !NoCandidate(modes, target.timing) {
      var b: nat :| TakesBest(modes, target, low, high, status, result, b);
    }
  }

  const BLANK_TIMING: HaikuTiming := HaikuTiming(0, 0, 0, 0, 0, 0, 0, 0, 0, 0)
  const BLANK_MODE: DisplayMode := DisplayMode(BLANK_TIMING, 0, 0, 0, 0, 0)

  /** The input that shows it: a target that is all zero, against any list without such a mode. */
  lemma BlankTargetDivides(modes: seq<NvTiming>, low: DisplayMode, high: DisplayMode,
                           status: Status, result: DisplayMode)
    requires forall i :: 0 <= i < |modes| ==> modes[i].hVisible > 0
    requires Proposal(modes, BLANK_MODE, low, high, status, result)
    ensures status == DivideError
  {
    forall i | 0 <= i < |modes| ensures ToHaiku(modes[i]) != BLANK_TIMING {
      assert ToHaiku(modes[i]).hDisplay == modes[i].hVisible;
    }
    DividesIff(modes, BLANK_MODE, low, high, status, result);
  }

  /** An accepted mode is a listed one, within the bounds, of the resolution and interlacing asked
      for, and only its timing may differ from the request. */
  lemma AcceptedModeIsListed(modes: seq<NvTiming>, target: DisplayMode, low: DisplayMode, high: DisplayMode,
                             result: DisplayMode)
    requires Proposal(modes, target, low, high, Ok, result)
    ensures Listed(modes, result.timing) && WithinBounds(result, low, high)
    ensures result == target.(timing := result.timing)
    ensures result.timing.hDisplay == target.timing.hDisplay && result.timing.vDisplay == target.timing.vDisplay
    ensures IsInterlaced(result.timing) <==> IsInterlaced(target.timing)
  {
    if !Listed(modes, target.timing) {
      var b: nat :| TakesBest(modes, target, low, high, Ok, result, b);
      assert ToHaiku(modes[b]) == result.timing;
      FlagsAreKnown(modes[b]);
    }
  }

  /** Proposing the result again, with the same bounds, gives the same verdict and changes nothing;
      in particular an accepted mode stays accepted. */
  lemma ProposingAgainChangesNothing(modes: seq<NvTiming>, target: DisplayMode, low: DisplayMode, high: DisplayMode,
                                     s1: Status, r1: DisplayMode, s2: Status, r2: DisplayMode)
    requires Proposal(modes, target, low, high, s1, r1)
    requires Proposal(modes, r1, low, high, s2, r2)
    ensures s2 == s1 && r2 == r1
  {
    if s1 == Ok || s1 == BadValue {
      if !Listed(modes, target.timing) {
        var b: nat :| TakesBest(modes, target, low, high, s1, r1, b);
        assert ToHaiku(modes[b]) == r1.timing;
      }
      assert Listed(modes, r1.timing);
    } else {
      ProposalIsUnique(modes, target, low, high, s1, r1, s2, r2);
    }
  }
}
