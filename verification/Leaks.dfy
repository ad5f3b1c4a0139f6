/** What is left behind over every run of mode sets and cursor calls: Haiku areas, and RM mappings
    that were half made. */
module Leaks {
  import opened Common
  import opened CursorImages
  import opened Ownership
  import opened OwnershipRuns

  /** The second of the two calls of MapMemory fails. */
  predicate StopsHalfMapped(space: ColorSpace, f: Faults) {
    (space.RGB32? || space.RGBA32?) && !f.alloc && !f.export_ && !f.register && !f.map_ && f.area
  }

  predicate LosesMapping(op: Op, f: Faults) {
    ConstructorSpace(op, f).Some? && StopsHalfMapped(ConstructorSpace(op, f).value, f)
  }

  function One(b: bool): nat {
    if b then 1 else 0
  }

  /** Areas and half-made mappings that exist have old names. */
  ghost predicate Named(k: Kernel) {
    && (forall x :: x in k.areas ==> 0 <= x < k.next)
    && (forall r :: r in k.stray ==> r.Mapped? && r.linear < k.next)
  }

  /** From k to k' so many areas and so many half-made mappings came in, and none went. */
  ghost predicate Piled(k: Kernel, k': Kernel, areas: nat, strays: nat) {
    && Named(k') && k'.next >= k.next
    && k.areas <= k'.areas && |k'.areas| == |k.areas| + areas
    && k.stray <= k'.stray && |k'.stray| == |k.stray| + strays
  }

  ghost predicate Same(k: Kernel, k': Kernel) {
    k'.areas == k.areas && k'.stray == k.stray && k'.next == k.next
  }

  /** The mapping forgets its area when it is moved, so what is deleted is area -1. */
  lemma DestroySame(k: Kernel, b: Bitmap)
    requires Named(k) && b.mapping.area == -1
    ensures Same(k, Destroy(k, b))
  {
  }

  lemma MoveSame(k: Kernel, dst: Bitmap, src: Bitmap)
    requires Named(k) && dst.mapping.area == -1
    ensures var (k', dst', src') := MoveAssign(k, dst, src);
            Same(k, k') && dst'.mapping.area == -1 && src'.mapping.area == src.mapping.area
  {
  }

  lemma ConstructPiles(k: Kernel, width: nat, height: nat, space: ColorSpace, f: Faults)
    requires Named(k)
    ensures var (k', made) := Construct(k, width, height, space, f);
            && Piled(k, k', One(Constructs(space, f)), One(StopsHalfMapped(space, f)))
            && (made.Some? <==> Constructs(space, f))
            && (made.Some? ==> made.value.mapping.area == -1)
  {
    if Constructs(space, f) {
      assert k.next + 3 !in k.areas;
    } else if StopsHalfMapped(space, f) {
      assert Mapped(k.next, k.next + 2) !in k.stray;
    }
  }

  ghost predicate AreaLess(a: Accel) {
    && Named(a.kernel)
    && a.oldFramebuffer.mapping.area == a.framebuffer.mapping.area == -1
    && a.cursor.mapping.area == a.newCursor.mapping.area == -1
  }

  lemma InstallSame(a: Accel, k: Kernel, b: Bitmap, m: ModeRequest)
    requires AreaLess(a.(kernel := k)) && b.mapping.area == -1
    ensures var a' := Install(a, k, b, m);
            Same(k, a'.kernel) && AreaLess(a')
  {
    MoveSame(k, a.oldFramebuffer, a.framebuffer);
    var (k3, old', fb') := MoveAssign(k, a.oldFramebuffer, a.framebuffer);
    MoveSame(k3, fb', b);
    var (k4, fb'', tmp) := MoveAssign(k3, fb', b);
    DestroySame(k4, tmp);
  }

  lemma CommitSame(a: Accel, k: Kernel, b: Bitmap, m: ModeRequest, f: Faults)
    requires AreaLess(a.(kernel := k)) && b.mapping.area == -1
    ensures var a' := Commit(a, k, b, m, f).0;
            Same(k, a'.kernel) && AreaLess(a')
  {
    DestroySame(k, b);
    InstallSame(a, SelectScanout(k, b.surface), b, m);
  }

  lemma UpdateCursorSame(a: Accel, updateImage: bool, updatePos: bool, f: Faults)
    requires AreaLess(a)
    ensures var a' := UpdateCursor(a, updateImage, updatePos, f).0;
            Same(a.kernel, a'.kernel) && AreaLess(a')
  {
    var handle := if !a.visible then 0
                  else if IsSet(a.newCursor) then a.newCursor.surface else a.cursor.surface;
    MoveSame(SelectCursor(a.kernel, handle), a.cursor, a.newCursor);
  }

  lemma TakeCursorSame(a: Accel, k: Kernel, b: Bitmap, hotX: int, hotY: int, f: Faults)
    requires AreaLess(a.(kernel := k)) && b.mapping.area == -1
    ensures var a' := TakeCursor(a, k, b, hotX, hotY, f).0;
            Same(k, a'.kernel) && AreaLess(a')
  {
    MoveSame(k, a.newCursor, b);
    var (k2, n', tmp) := MoveAssign(k, a.newCursor, b);
    var a1 := a.(kernel := k2, newCursor := n', hotX := hotX, hotY := hotY);
    UpdateCursorSame(a1, true, true, f);
    DestroySame(if a1.visible then UpdateCursor(a1, true, true, f).0.kernel else k2, tmp);
  }

  lemma SetDisplayModePiles(a: Accel, m: ModeRequest, f: Faults)
    requires AreaLess(a)
    ensures var a' := SetDisplayMode(a, m, f).0;
            var op := SetMode(m);
            AreaLess(a') && Piled(a.kernel, a'.kernel, One(MakesBitmap(op, f)), One(LosesMapping(op, f)))
  {
    if !Refused(m, f) {
      ConstructPiles(a.kernel, m.virtualWidth, m.virtualHeight, m.space, f);
      var (k1, made) := Construct(a.kernel, m.virtualWidth, m.virtualHeight, m.space, f);
      if made.Some? {
        CommitSame(a, k1, made.value, m, f);
      }
    }
  }

  lemma SetCursorBitmapPiles(a: Accel, width: nat, height: nat, hotX: int, hotY: int, space: ColorSpace, f: Faults)
    requires AreaLess(a)
    ensures var a' := SetCursorBitmap(a, width, height, hotX, hotY, space, f).0;
            var op := SetCursor(width, height, hotX, hotY, space);
            AreaLess(a') && Piled(a.kernel, a'.kernel, One(MakesBitmap(op, f)), One(LosesMapping(op, f)))
  {
    var side := CursorSide(width, height);
    if side.Some? {
      ConstructPiles(a.kernel, side.value, side.value, space, f);
      var (k1, made) := Construct(a.kernel, side.value, side.value, space, f);
      if made.Some? {
        TakeCursorSame(a, k1, made.value, hotX, hotY, f);
      }
    }
  }

  lemma DoPiles(a: Accel, op: Op, f: Faults)
    requires AreaLess(a)
    ensures var a' := Do(a, op, f).0;
            AreaLess(a') && Piled(a.kernel, a'.kernel, One(MakesBitmap(op, f)), One(LosesMapping(op, f)))
  {
    match op
    case SetMode(m) => SetDisplayModePiles(a, m, f);
    case SetCursor(w, h, x, y, space) => SetCursorBitmapPiles(a, w, h, x, y, space, f);
    case Show(v) => UpdateCursorSame(a.(visible := !a.visible), true, false, f);
    case Move(x, y) => UpdateCursorSame(a.(posX := x, posY := y), false, true, f);
  }

  /** Operations of a list that complete a bitmap. */
  function Completed(ops: seq<(Op, Faults)>): nat {
    if ops == [] then 0 else One(MakesBitmap(ops[0].0, ops[0].1)) + Completed(ops[1..])
  }

  /** Operations of a list in which MapMemory stops half way. */
  function HalfMapped(ops: seq<(Op, Faults)>): nat {
    if ops == [] then 0 else One(LosesMapping(ops[0].0, ops[0].1)) + HalfMapped(ops[1..])
  }

  /** Two losses, exactly. No Haiku area of a bitmap is ever deleted: all that were there are still
      there, and one more for every bitmap ever completed. And one RM mapping is left behind for
      every time the second call of MapMemory failed. */
  lemma {:induction false} LeaksOverRuns(a: Accel, ops: seq<(Op, Faults)>)
    requires AreaLess(a)
    ensures AreaLess(Run(a, ops))
    ensures Piled(a.kernel, Run(a, ops).kernel, Completed(ops), HalfMapped(ops))
    decreases |ops|
  {
    if ops != [] {
      DoPiles(a, ops[0].0, ops[0].1);
      LeaksOverRuns(Do(a, ops[0].0, ops[0].1).0, ops[1..]);
    }
  }

  /** The inputs that show it: one cursor image that is completed, or whose mapping fails half way,
      before anything else. */
  lemma AreaIsLeft(a: Accel, f: Faults, later: seq<(Op, Faults)>)
    requires Init(a) && Constructs(RGB32, f)
    ensures Run(a, [(SetCursor(16, 16, 0, 0, RGB32), f)] + later).kernel.areas != {}
  {
    var ops := [(SetCursor(16, 16, 0, 0, RGB32), f)] + later;
    assert ops[1..] == later;
    LeaksOverRuns(a, ops);
  }

  lemma MappingIsLeft(a: Accel, f: Faults, later: seq<(Op, Faults)>)
    requires Init(a) && StopsHalfMapped(RGB32, f)
    ensures Run(a, [(SetCursor(16, 16, 0, 0, RGB32), f)] + later).kernel.stray != {}
  {
    var ops := [(SetCursor(16, 16, 0, 0, RGB32), f)] + later;
    assert ops[1..] == later;
    LeaksOverRuns(a, ops);
  }
}
