/** Grouping display modes for the menus: a sorted map from resolution to a sorted map from refresh
    rate and interlacing to the modes, in their order. */
module ModeGroups {
  import opened Timings

  // -- The two key orders --

  /** ModeResolutionKey::operator<. */
  predicate ResolutionLess(a: HaikuTiming, b: HaikuTiming) {
    if a.hDisplay != b.hDisplay then a.hDisplay < b.hDisplay else a.vDisplay < b.vDisplay
  }

  /** ModeRefreshRateKey::operator<; false sorts before true. */
  predicate RateLess(a: HaikuTiming, b: HaikuTiming)
    requires FrameTotal(a) > 0 && FrameTotal(b) > 0
  {
    if CalcRefreshRate(a) != CalcRefreshRate(b) then CalcRefreshRate(a) < CalcRefreshRate(b)
    else !IsInterlaced(a) && IsInterlaced(b)
  }

  /** Numbers that order and identify the keys. */
  function ResolutionCode(t: HaikuTiming): nat {
    t.hDisplay * 0x1_0000 + t.vDisplay
  }

  /** A mode whose totals multiply to zero has no refresh rate; alone in its resolution it is never
      compared, and 0 stands in. */
  function RateCode(t: HaikuTiming): nat {
    if FrameTotal(t) == 0 then 0
    else CalcRefreshRate(t) * 2 + (if IsInterlaced(t) then 1 else 0)
  }

  /** The resolution order is the order of the codes; equivalent modes have equal resolution. */
  lemma ResolutionOrder(a: HaikuTiming, b: HaikuTiming)
    ensures ResolutionLess(a, b) <==> ResolutionCode(a) < ResolutionCode(b)
    ensures ResolutionCode(a) == ResolutionCode(b) <==> a.hDisplay == b.hDisplay && a.vDisplay == b.vDisplay
  {
  }

  /** So is the rate order, where there are rates to compare. */
  lemma RateOrder(a: HaikuTiming, b: HaikuTiming)
    requires FrameTotal(a) > 0 && FrameTotal(b) > 0
    ensures RateLess(a, b) <==> RateCode(a) < RateCode(b)
    ensures RateCode(a) == RateCode(b) <==>
              CalcRefreshRate(a) == CalcRefreshRate(b) && (IsInterlaced(a) <==> IsInterlaced(b))
  {
  }

  /** What std::map asks of its order: irreflexive, transitive, and incomparability transitive. */
  lemma ResolutionIsStrictWeak(a: HaikuTiming, b: HaikuTiming, c: HaikuTiming)
    ensures !ResolutionLess(a, a)
    ensures ResolutionLess(a, b) && ResolutionLess(b, c) ==> ResolutionLess(a, c)
    ensures !ResolutionLess(a, b) && !ResolutionLess(b, a) && !ResolutionLess(b, c) && !ResolutionLess(c, b)
        ==> !ResolutionLess(a, c) && !ResolutionLess(c, a)
  {
    ResolutionOrder(a, b);
    ResolutionOrder(b, c);
    ResolutionOrder(a, c);
  }

  lemma RateIsStrictWeak(a: HaikuTiming, b: HaikuTiming, c: HaikuTiming)
    requires FrameTotal(a) > 0 && FrameTotal(b) > 0 && FrameTotal(c) > 0
    ensures !RateLess(a, a)
    ensures RateLess(a, b) && RateLess(b, c) ==> RateLess(a, c)
    ensures !RateLess(a, b) && !RateLess(b, a) && !RateLess(b, c) && !RateLess(c, b)
        ==> !RateLess(a, c) && !RateLess(c, a)
  {
    RateOrder(a, b);
    RateOrder(b, c);
    RateOrder(a, c);
  }

  // -- Sorted maps --

  datatype Entry<V> = Entry(key: nat, value: V)

  ghost predicate Sorted<V>(m: seq<Entry<V>>) {
    forall i, j :: 0 <= i < j < |m| ==> m[i].key < m[j].key
  }

  /** The first position whose key is not below `key`. */
  function LowerBound<V>(m: seq<Entry<V>>, key: nat): (p: nat)
    ensures p <= |m|
    ensures forall i :: 0 <= i < p ==> m[i].key < key
    ensures p < |m| ==> m[p].key >= key
  {
    if m == [] || m[0].key >= key then 0 else 1 + LowerBound(m[1..], key)
  }

  function Lookup<V>(m: seq<Entry<V>>, key: nat, default: V): V {
    var p := LowerBound(m, key);
    if p < |m| && m[p].key == key then m[p].value else default
  }

  /** std::map::insert of a key with an empty value: an equivalent key stays. */
  function Insert<V>(m: seq<Entry<V>>, key: nat, empty: V): (r: seq<Entry<V>>)
    ensures LowerBound(m, key) < |r|
  {
    var p := LowerBound(m, key);
    if p < |m| && m[p].key == key then m else m[..p] + [Entry(key, empty)] + m[p..]
  }

  /** The map after the value under `key` has been replaced or added. */
  function Put<V>(m: seq<Entry<V>>, key: nat, value: V): seq<Entry<V>> {
    var p := LowerBound(m, key);
    Insert(m, key, value)[p := Entry(key, value)]
  }

  lemma LowerBoundUnique<V>(m: seq<Entry<V>>, key: nat, p: nat)
    requires p <= |m|
    requires forall i :: 0 <= i < p ==> m[i].key < key
    requires p < |m| ==> m[p].key >= key
    ensures LowerBound(m, key) == p
  {
    assert LowerBound(m, key) >= p;
  }

  lemma PutSorted<V>(m: seq<Entry<V>>, key: nat, value: V)
    requires Sorted(m)
    ensures Sorted(Put(m, key, value))
  {
  }

  /** Another value under a key that is there moves no key. */
  lemma BoundAfterReplace<V>(m: seq<Entry<V>>, p: nat, e: Entry<V>, k: nat)
    requires p < |m| && m[p].key == e.key
    ensures LowerBound(m[p := e], k) == LowerBound(m, k)
  {
    var r := m[p := e];
    assert forall i :: 0 <= i < |m| ==> r[i].key == m[i].key;
    LowerBoundUnique(r, k, LowerBound(m, k));
  }

  /** r is m with e added at p. */
  ghost predicate Added<V>(m: seq<Entry<V>>, r: seq<Entry<V>>, p: nat, e: Entry<V>) {
    && |r| == |m| + 1
    && p <= |m|
    && r[p] == e
    && (forall i :: 0 <= i < p ==> r[i] == m[i])
    && (forall i :: p < i < |r| ==> r[i] == m[i - 1])
  }

  /** A new key moves those above it by one. */
  lemma BoundAfterAdd<V>(m: seq<Entry<V>>, r: seq<Entry<V>>, p: nat, e: Entry<V>, k: nat)
    requires Added(m, r, p, e)
    requires p == LowerBound(m, e.key) && (p < |m| ==> m[p].key != e.key)
    ensures LowerBound(r, k) == LowerBound(m, k) + if k <= e.key then 0 else 1
  {
    if k <= e.key {
      BoundBelowAdded(m, r, p, e, k);
    } else {
      BoundAboveAdded(m, r, p, e, k);
    }
  }

  lemma BoundBelowAdded<V>(m: seq<Entry<V>>, r: seq<Entry<V>>, p: nat, e: Entry<V>, k: nat)
    requires Added(m, r, p, e) && p == LowerBound(m, e.key) && k <= e.key
    ensures LowerBound(r, k) == LowerBound(m, k) <= p
  {
    var q := LowerBound(m, k);
    assert q <= p;
    forall i | 0 <= i < q ensures r[i].key < k {
      assert r[i] == m[i];
    }
    assert q < p ==> r[q] == m[q];
    LowerBoundUnique(r, k, q);
  }

  lemma BoundAboveAdded<V>(m: seq<Entry<V>>, r: seq<Entry<V>>, p: nat, e: Entry<V>, k: nat)
    requires Added(m, r, p, e) && p == LowerBound(m, e.key) && k > e.key
    ensures LowerBound(r, k) == LowerBound(m, k) + 1 > p
  {
    var q := LowerBound(m, k);
    assert q >= p;
    forall i | 0 <= i < q + 1 ensures r[i].key < k {
      assert r[i] == if i < p then m[i] else if i == p then e else m[i - 1];
    }
    assert q < |m| ==> r[q + 1] == m[q];
    LowerBoundUnique(r, k, q + 1);
  }

  lemma AddLookup<V>(m: seq<Entry<V>>, r: seq<Entry<V>>, p: nat, e: Entry<V>, k: nat, default: V)
    requires Added(m, r, p, e)
    requires p == LowerBound(m, e.key) && (p < |m| ==> m[p].key != e.key)
    ensures Lookup(r, k, default) == if k == e.key then e.value else Lookup(m, k, default)
  {
    BoundAfterAdd(m, r, p, e, k);
    var q := LowerBound(m, k);
    if k > e.key {
      assert p <= q && LowerBound(r, k) == q + 1;
      if q < |m| {
        assert r[q + 1] == m[q];
      }
    } else if k < e.key {
      assert q <= p && LowerBound(r, k) == q;
      if q < p {
        assert r[q] == m[q];
      }
    } else {
      assert LowerBound(r, k) == p;
    }
  }

  lemma PutAdds<V>(m: seq<Entry<V>>, key: nat, value: V)
    requires var p := LowerBound(m, key); p < |m| ==> m[p].key != key
    ensures Added(m, Put(m, key, value), LowerBound(m, key), Entry(key, value))
  {
    var p, e := LowerBound(m, key), Entry(key, value);
    AddedAt(m, p, e);
    assert Put(m, key, value) == (m[..p] + [e] + m[p..])[p := e];
  }

  lemma AddedAt<V>(m: seq<Entry<V>>, p: nat, e: Entry<V>)
    requires p <= |m|
    ensures Added(m, (m[..p] + [e] + m[p..])[p := e], p, e)
  {
  }

  lemma PutReplaces<V>(m: seq<Entry<V>>, key: nat, value: V)
    requires var p := LowerBound(m, key); p < |m| && m[p].key == key
    ensures Put(m, key, value) == m[LowerBound(m, key) := Entry(key, value)]
  {
  }

  lemma ReplaceLookup<V>(m: seq<Entry<V>>, p: nat, e: Entry<V>, k: nat, default: V)
    requires p == LowerBound(m, e.key) && p < |m| && m[p].key == e.key
    ensures Lookup(m[p := e], k, default) == if k == e.key then e.value else Lookup(m, k, default)
  {
    BoundAfterReplace(m, p, e, k);
  }

  lemma PutLookup<V>(m: seq<Entry<V>>, key: nat, value: V, k: nat, default: V)
    ensures Lookup(Put(m, key, value), k, default) == if k == key then value else Lookup(m, k, default)
  {
    var p, e := LowerBound(m, key), Entry(key, value);
    if p < |m| && m[p].key == key {
      PutReplaces(m, key, value);
      ReplaceLookup(m, p, e, k, default);
    } else {
      PutAdds(m, key, value);
      AddLookup(m, Put(m, key, value), p, e, k, default);
    }
  }

  lemma LookupAt<V>(m: seq<Entry<V>>, i: nat, default: V)
    requires Sorted(m) && i < |m|
    ensures Lookup(m, m[i].key, default) == m[i].value
  {
    LowerBoundUnique(m, m[i].key, i);
  }

  // -- Grouping --

  type Groups = seq<Entry<seq<Entry<seq<nat>>>>>

  /** Positions of the modes with the given keys among the first n, in order. */
  function Matching(modes: seq<HaikuTiming>, n: nat, resolution: nat, rate: nat): seq<nat>
    requires n <= |modes|
  {
    if n == 0 then []
    else
      Matching(modes, n - 1, resolution, rate)
        + (if HasKeys(modes[n - 1], resolution, rate) then [n - 1] else [])
  }

  function GroupAt(g: Groups, resolution: nat, rate: nat): seq<nat> {
    Lookup(Lookup(g, resolution, []), rate, [])
  }

  /** A bucket is a sorted map of groups, and neither it nor any of them is empty. */
  ghost predicate GoodBucket(inner: seq<Entry<seq<nat>>>) {
    Sorted(inner) && inner != [] && forall x :: x in inner ==> x.value != []
  }

  ghost predicate WellFormed(g: Groups) {
    Sorted(g) && forall x :: x in g ==> GoodBucket(x.value)
  }

  /** The groups of the first n modes. */
  ghost predicate Grouped(modes: seq<HaikuTiming>, n: nat, g: Groups)
    requires n <= |modes|
  {
    && WellFormed(g)
    && forall resolution: nat, rate: nat :: GroupAt(g, resolution, rate) == Matching(modes, n, resolution, rate)
  }

  /** One round of the loop as a value. */
  function AddMode(g: Groups, resolution: nat, rate: nat, i: nat): Groups {
    var inner := Lookup(g, resolution, []);
    Put(g, resolution, Put(inner, rate, Lookup(inner, rate, []) + [i]))
  }

  lemma LookupSorted(g: Groups, resolution: nat)
    requires WellFormed(g)
    ensures var inner := Lookup(g, resolution, []);
            inner == [] || GoodBucket(inner)
  {
  }

  lemma AddModeWellFormed(g: Groups, resolution: nat, rate: nat, i: nat)
    requires WellFormed(g)
    ensures WellFormed(AddMode(g, resolution, rate, i))
  {
    LookupSorted(g, resolution);
    var inner := Lookup(g, resolution, []);
    var inner' := Put(inner, rate, Lookup(inner, rate, []) + [i]);
    PutSorted(inner, rate, Lookup(inner, rate, []) + [i]);
    PutSorted(g, resolution, inner');
    PutKeepsOthers(inner, rate, Lookup(inner, rate, []) + [i]);
    PutKeepsOthers(g, resolution, inner');
  }

  /** Every entry of the new map is the one put in or an old one. */
  lemma PutKeepsOthers<V>(m: seq<Entry<V>>, key: nat, value: V)
    ensures forall x :: x in Put(m, key, value) ==> x == Entry(key, value) || x in m
    ensures Put(m, key, value) != []
  {
  }

  lemma AddModeAt(g: Groups, resolution: nat, rate: nat, i: nat, r: nat, f: nat)
    requires WellFormed(g)
    ensures GroupAt(AddMode(g, resolution, rate, i), r, f)
         == GroupAt(g, r, f) + (if r == resolution && f == rate then [i] else [])
  {
    LookupSorted(g, resolution);
    var inner := Lookup(g, resolution, []);
    var value := Lookup(inner, rate, []) + [i];
    PutLookup(g, resolution, Put(inner, rate, value), r, []);
    PutLookup(inner, rate, value, f, []);
    assert GroupAt(g, r, f) + [] == GroupAt(g, r, f);
  }

  /** Two of the first n modes share a resolution, and one of them has no refresh rate. */
  ghost predicate Clash(modes: seq<HaikuTiming>, n: nat)
    requires n <= |modes|
  {
    exists i, j :: 0 <= i < n && 0 <= j < n && i != j && Clashes(modes[i], modes[j])
  }

  predicate Clashes(a: HaikuTiming, b: HaikuTiming) {
    ResolutionCode(a) == ResolutionCode(b) && (FrameTotal(a) == 0 || FrameTotal(b) == 0)
  }

  /** Looking for the rate of mode i compares it with the first rate of its resolution; either rate
      may divide by zero. */
  predicate Divides(modes: seq<HaikuTiming>, inner: seq<Entry<seq<nat>>>, i: nat)
    requires i < |modes|
    requires inner != [] ==> inner[0].value != [] && inner[0].value[0] < |modes|
  {
    inner != [] && (FrameTotal(modes[i]) == 0 || FrameTotal(modes[inner[0].value[0]]) == 0)
  }

  /** The first mode of a bucket is a mode of that resolution; there is one unless there is none. */
  lemma FirstOfBucket(modes: seq<HaikuTiming>, i: nat, g: Groups, resolution: nat)
    requires i <= |modes| && Grouped(modes, i, g)
    ensures var inner := Lookup(g, resolution, []);
            && (inner != [] ==>
                  && inner[0].value != [] && inner[0].value[0] < i
                  && ResolutionCode(modes[inner[0].value[0]]) == resolution)
            && (forall j :: 0 <= j < i && ResolutionCode(modes[j]) == resolution ==> inner != [])
  {
    LookupSorted(g, resolution);
    var inner := Lookup(g, resolution, []);
    if inner != [] {
      var rate := inner[0].key;
      LookupAt(inner, 0, []);
      assert inner[0] in inner;
      assert GroupAt(g, resolution, rate) == inner[0].value;
      MatchingIsOrdered(modes, i, resolution, rate);
      assert inner[0].value[0] in Matching(modes, i, resolution, rate);
    }
    forall j | 0 <= j < i && ResolutionCode(modes[j]) == resolution ensures inner != [] {
      MatchingIsOrdered(modes, i, resolution, RateCode(modes[j]));
      assert j in GroupAt(g, resolution, RateCode(modes[j]));
    }
  }

  /** As long as no two modes clash, the comparison divides exactly when the next mode makes two
      clash: a mode without a rate is alone in its bucket, so it is the first. */
  lemma DividesIffClash(modes: seq<HaikuTiming>, i: nat, g: Groups)
    requires i < |modes| && Grouped(modes, i, g) && !Clash(modes, i)
    ensures var inner := Lookup(g, ResolutionCode(modes[i]), []);
            && (inner != [] ==> inner[0].value != [] && inner[0].value[0] < i)
            && (Divides(modes, inner, i) <==> Clash(modes, i + 1))
  {
    var resolution := ResolutionCode(modes[i]);
    FirstOfBucket(modes, i, g, resolution);
    var inner := Lookup(g, resolution, []);
    if inner != [] {
      var first := inner[0].value[0];
      if Divides(modes, inner, i) {
        assert Clashes(modes[i], modes[first]);
      }
      assert forall j :: 0 <= j < i && j != first ==> !Clashes(modes[j], modes[first]);
    }
    assert forall x, y :: 0 <= x < |modes| && 0 <= y < |modes| ==>
             (Clashes(modes[x], modes[y]) <==> Clashes(modes[y], modes[x]));
  }

  /** The loop of BuildModeMenus: two inserts that leave an existing key alone, then push_back.
      divides: the source has divided by zero. */
  method BuildGroups(modes: seq<HaikuTiming>) returns (g: Groups, divides: bool)
    ensures divides <==> Clash(modes, |modes|)
    ensures !divides ==> Grouped(modes, |modes|, g)
  {
    g := [];
    NothingGrouped(modes);
    divides := false;
    var i := 0;
    while i < |modes|
      invariant 0 <= i <= |modes| && !divides && SoFar(modes, i, g)
    {
      g, divides := PlaceMode(modes, i, g);
      if divides {
        return;
      }
      i := i + 1;
    }
  }

  /** One round of the loop. */
  method PlaceMode(modes: seq<HaikuTiming>, i: nat, before: Groups) returns (g: Groups, divides: bool)
    requires i < |modes| && SoFar(modes, i, before)
    ensures divides ==> Clash(modes, |modes|)
    ensures !divides ==> SoFar(modes, i + 1, g)
  {
    OneRound(modes, i, before);
    var resolution, rate := ResolutionCode(modes[i]), RateCode(modes[i]);
    divides := Divides(modes, Lookup(before, resolution, []), i);
    if divides {
      return before, true;
    }
    g := InsertMode(before, resolution, rate, i);
  }

  ghost predicate SoFar(modes: seq<HaikuTiming>, i: nat, g: Groups)
    requires i <= |modes|
  {
    Grouped(modes, i, g) && !Clash(modes, i)
  }

  lemma NothingGrouped(modes: seq<HaikuTiming>)
    ensures SoFar(modes, 0, [])
  {
  }

  lemma OneRound(modes: seq<HaikuTiming>, i: nat, g: Groups)
    requires i < |modes| && SoFar(modes, i, g)
    ensures var inner := Lookup(g, ResolutionCode(modes[i]), []);
            && (inner != [] ==> inner[0].value != [] && inner[0].value[0] < i)
            && (Divides(modes, inner, i) ==> Clash(modes, |modes|))
            && (!Divides(modes, inner, i) ==>
                  SoFar(modes, i + 1, AddMode(g, ResolutionCode(modes[i]), RateCode(modes[i]), i)))
  {
    DividesIffClash(modes, i, g);
    if Clash(modes, i + 1) {
      ClashStays(modes, i + 1, |modes|);
    }
    AddModeGrouped(modes, i, g);
  }

  /** The input that shows it: the same mode twice, with a total of zero. */
  lemma TwiceTheSameClashes(t: HaikuTiming)
    requires FrameTotal(t) == 0
    ensures Clash([t, t], 2)
  {
    var modes := [t, t];
    assert Clashes(modes[0], modes[1]);
  }

  lemma ClashStays(modes: seq<HaikuTiming>, m: nat, n: nat)
    requires m <= n <= |modes| && Clash(modes, m)
    ensures Clash(modes, n)
  {
    var i, j :| 0 <= i < m && 0 <= j < m && i != j && Clashes(modes[i], modes[j]);
  }

  /** One round of the loop on the map of maps. */
  method InsertMode(before: Groups, resolution: nat, rate: nat, i: nat) returns (g: Groups)
    ensures g == AddMode(before, resolution, rate, i)
  {
    g := Insert(before, resolution, []);
    var it1 := LowerBound(before, resolution);
    var inner := Insert(g[it1].value, rate, []);
    var it2 := LowerBound(g[it1].value, rate);
    inner := inner[it2 := Entry(rate, inner[it2].value + [i])];
    g := g[it1 := Entry(resolution, inner)];
    InsertThenPush(before, resolution, rate, i);
  }

  lemma AddModeGrouped(modes: seq<HaikuTiming>, i: nat, g: Groups)
    requires i < |modes|
    requires Grouped(modes, i, g)
    ensures Grouped(modes, i + 1, AddMode(g, ResolutionCode(modes[i]), RateCode(modes[i]), i))
  {
    var resolution, rate := ResolutionCode(modes[i]), RateCode(modes[i]);
    var g' := AddMode(g, resolution, rate, i);
    AddModeWellFormed(g, resolution, rate, i);
    forall r: nat, f: nat ensures GroupAt(g', r, f) == Matching(modes, i + 1, r, f) {
      AddModeAt(g, resolution, rate, i, r, f);
      assert GroupAt(g, r, f) == Matching(modes, i, r, f);
    }
  }

  /** The two inserts and the push_back amount to AddMode. */
  lemma InsertThenPush(g: Groups, resolution: nat, rate: nat, i: nat)
    ensures var g1 := Insert(g, resolution, []);
            var it1 := LowerBound(g, resolution);
            var inner := Insert(g1[it1].value, rate, []);
            var it2 := LowerBound(g1[it1].value, rate);
            g1[it1 := Entry(resolution, inner[it2 := Entry(rate, inner[it2].value + [i])])]
              == AddMode(g, resolution, rate, i)
  {
    var g1 := Insert(g, resolution, []);
    var it1 := LowerBound(g, resolution);
    assert g1[it1].value == Lookup(g, resolution, []);
    InsertValue(g1[it1].value, rate, i);
    InsertAnyValue(g, resolution, [], Put(g1[it1].value, rate, Lookup(g1[it1].value, rate, []) + [i]));
  }

  lemma InsertValue(m: seq<Entry<seq<nat>>>, key: nat, i: nat)
    ensures var p := LowerBound(m, key);
            var r := Insert(m, key, []);
            r[p].value == Lookup(m, key, []) &&
            r[p := Entry(key, r[p].value + [i])] == Put(m, key, Lookup(m, key, []) + [i])
  {
    InsertAnyValue(m, key, [], Lookup(m, key, []) + [i]);
  }

  /** What is replaced right after the insert does not matter. */
  lemma InsertAnyValue<V>(m: seq<Entry<V>>, key: nat, empty: V, value: V)
    ensures Insert(m, key, empty)[LowerBound(m, key) := Entry(key, value)] == Put(m, key, value)
  {
  }

  // -- A partition --

  /** A mode is in the list under two keys exactly when the keys are its own; the list ascends. */
  lemma {:induction false} MatchingIsOrdered(modes: seq<HaikuTiming>, n: nat, resolution: nat, rate: nat)
    requires n <= |modes|
    ensures Ascends(Matching(modes, n, resolution, rate))
    ensures forall k: nat :: k in Matching(modes, n, resolution, rate) <==>
              k < n && HasKeys(modes[k], resolution, rate)
  {
    if n > 0 {
      MatchingIsOrdered(modes, n - 1, resolution, rate);
      var s := Matching(modes, n - 1, resolution, rate);
      if HasKeys(modes[n - 1], resolution, rate) {
        AscendsFurther(s, n - 1);
        assert Matching(modes, n, resolution, rate) == s + [n - 1];
      } else {
        assert Matching(modes, n, resolution, rate) == s;
      }
    }
  }

  predicate HasKeys(t: HaikuTiming, resolution: nat, rate: nat) {
    ResolutionCode(t) == resolution && RateCode(t) == rate
  }

  predicate Ascends(s: seq<nat>) {
    forall p, q :: 0 <= p < q < |s| ==> s[p] < s[q]
  }

  lemma AscendsFurther(s: seq<nat>, x: nat)
    requires Ascends(s) && forall y :: y in s ==> y < x
    ensures Ascends(s + [x])
  {
    assert forall p :: 0 <= p < |s| ==> s[p] in s;
  }

  /** Place p of group c of bucket b. */
  ghost predicate StandsAt(g: Groups, b: nat, c: nat, p: nat, k: nat) {
    b < |g| && c < |g[b].value| && p < |g[b].value[c].value| && g[b].value[c].value[p] == k
  }

  lemma GroupIsMatching(modes: seq<HaikuTiming>, g: Groups, b: nat, c: nat)
    requires Grouped(modes, |modes|, g) && b < |g| && c < |g[b].value|
    ensures g[b].value[c].value == Matching(modes, |modes|, g[b].key, g[b].value[c].key)
  {
    LookupAt(g, b, []);
    LookupAt(g[b].value, c, []);
    assert GroupAt(g, g[b].key, g[b].value[c].key) == g[b].value[c].value;
  }

  /** Every mode stands somewhere, in the group of its own resolution, rate and interlacing. */
  lemma EveryModeIsPlaced(modes: seq<HaikuTiming>, g: Groups, k: nat)
    requires Grouped(modes, |modes|, g) && k < |modes|
    ensures exists b: nat, c: nat, p: nat :: StandsAt(g, b, c, p, k)
              && g[b].key == ResolutionCode(modes[k]) && g[b].value[c].key == RateCode(modes[k])
  {
    var r, f := ResolutionCode(modes[k]), RateCode(modes[k]);
    MatchingIsOrdered(modes, |modes|, r, f);
    var s := GroupAt(g, r, f);
    assert k in s;
    var p: nat :| p < |s| && s[p] == k;
    var b := LowerBound(g, r);
    var c := LowerBound(g[b].value, f);
    assert StandsAt(g, b, c, p, k);
  }

  /** No mode stands anywhere else, groups and modes are in order. */
  lemma NoModeTwice(modes: seq<HaikuTiming>, g: Groups, k: nat, b: nat, c: nat, p: nat, b': nat, c': nat, p': nat)
    requires Grouped(modes, |modes|, g) && StandsAt(g, b, c, p, k) && StandsAt(g, b', c', p', k)
    ensures b == b' && c == c' && p == p'
    ensures k < |modes| && g[b].key == ResolutionCode(modes[k]) && g[b].value[c].key == RateCode(modes[k])
  {
    GroupIsMatching(modes, g, b, c);
    GroupIsMatching(modes, g, b', c');
    MatchingIsOrdered(modes, |modes|, g[b].key, g[b].value[c].key);
    MatchingIsOrdered(modes, |modes|, g[b'].key, g[b'].value[c'].key);
    assert k in g[b].value[c].value && k in g[b'].value[c'].value;
  }

  /** Inside a group the modes keep the order of the list. */
  lemma InputOrderIsKept(modes: seq<HaikuTiming>, g: Groups, b: nat, c: nat)
    requires Grouped(modes, |modes|, g) && b < |g| && c < |g[b].value|
    ensures Ascends(g[b].value[c].value)
  {
    GroupIsMatching(modes, g, b, c);
    MatchingIsOrdered(modes, |modes|, g[b].key, g[b].value[c].key);
  }
}
