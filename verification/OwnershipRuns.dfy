/** What the ownership transitions add up to over every run of mode sets and cursor calls, with
    any kernel call allowed to fail. */
module OwnershipRuns {
  import opened Common
  import opened CursorImages
  import opened Ownership

  lemma InitInv(a: Accel)
    requires Init(a)
    ensures Inv(a)
  {
  }

  /** Selections and conservation: what the kernel scans out is the framebuffer's surface, its
      cursor is fCursor's or none, nothing selected was ever unregistered, everything alive is
      owned by exactly one of the four bitmaps and everything else was released once, mapping
      before surface before memory. */
  lemma OwnershipOverRuns(a: Accel, ops: seq<(Op, Faults)>)
    requires Init(a)
    ensures var a' := Run(a, ops);
            && Conserved(a') && !a'.kernel.misuse
            && a'.kernel.scanout == a'.framebuffer.surface
            && (a'.kernel.cursor == 0 || a'.kernel.cursor == a'.cursor.surface)
            && (a'.kernel.cursor != 0 ==> exists r :: r in a'.kernel.live && r.Surface? && r.s == a'.kernel.cursor)
            && (a'.kernel.scanout != 0 ==> exists r :: r in a'.kernel.live && r.Surface? && r.s == a'.kernel.scanout)
            && (IsSet(a'.framebuffer) <==> a'.current.Some?)
  {
    InitInv(a);
    RunKeepsInv(a, ops);
    var a' := Run(a, ops);
    if a'.kernel.scanout != 0 {
      assert Surface(a'.framebuffer.surface, a'.framebuffer.memory) in a'.kernel.live;
    }
    if a'.kernel.cursor != 0 {
      assert Surface(a'.cursor.surface, a'.cursor.memory) in a'.kernel.live;
    }
  }

  // -- How long a framebuffer mapping stays usable --

  ghost predicate SetsMode(a: Accel, op: Op, f: Faults) {
    op.SetMode? && Do(a, op, f).1
  }

  /** Successful mode sets of a run. */
  ghost function ModeSets(a: Accel, ops: seq<(Op, Faults)>): nat
    decreases |ops|
  {
    if ops == [] then 0
    else (if SetsMode(a, ops[0].0, ops[0].1) then 1 else 0) + ModeSets(Do(a, ops[0].0, ops[0].1).0, ops[1..])
  }

  /** b is unset, was there already, or has handles that did not exist. */
  ghost predicate OldOrNew(b: Bitmap, a: Accel) {
    !IsSet(b) || b == a.cursor || b == a.newCursor || b.memory >= a.kernel.next
  }

  lemma CommitKeepsCursors(a: Accel, k: Kernel, b: Bitmap, m: ModeRequest, f: Faults)
    ensures var a' := Commit(a, k, b, m, f).0; a'.cursor == a.cursor && a'.newCursor == a.newCursor
  {
  }

  lemma SetDisplayModeEffect(a: Accel, m: ModeRequest, f: Faults)
    requires Inv(a)
    ensures var (a', outcome) := SetDisplayMode(a, m, f);
            var ok := outcome == Returned;
            && a'.kernel.next >= a.kernel.next
            && a'.cursor == a.cursor && a'.newCursor == a.newCursor
            && (ok ==> a'.oldFramebuffer == a.framebuffer && a'.framebuffer.memory >= a.kernel.next)
            && (!ok ==> a'.oldFramebuffer == a.oldFramebuffer && a'.framebuffer == a.framebuffer)
  {
    if !Refused(m, f) {
      ConstructOutcome(a, m.virtualWidth, m.virtualHeight, m.space, f);
      var (k1, made) := Construct(a.kernel, m.virtualWidth, m.virtualHeight, m.space, f);
      if made.Some? {
        CommitOutcome(a, k1, made.value, m, f);
        CommitKeepsCursors(a, k1, made.value, m, f);
      }
    }
  }

  /** The pending image becomes the cursor, or nothing changes hands. */
  lemma UpdateCursorEffect(a: Accel, updateImage: bool, updatePos: bool, f: Faults)
    requires Clear(a.cursor) || a.cursor.mapping.area == -1
    requires Clear(a.newCursor) || a.newCursor.mapping.area == -1
    ensures var a' := UpdateCursor(a, updateImage, updatePos, f).0;
            && a'.kernel.next == a.kernel.next
            && (a'.cursor == a.cursor || a'.cursor == a.newCursor)
            && (a'.newCursor == a.newCursor || !IsSet(a'.newCursor))
            && a'.oldFramebuffer == a.oldFramebuffer && a'.framebuffer == a.framebuffer
  {
  }

  lemma SetCursorBitmapEffect(a: Accel, width: nat, height: nat, hotX: int, hotY: int, space: ColorSpace, f: Faults)
    requires Inv(a)
    ensures var a' := SetCursorBitmap(a, width, height, hotX, hotY, space, f).0;
            && a'.kernel.next >= a.kernel.next
            && OldOrNew(a'.cursor, a) && OldOrNew(a'.newCursor, a)
            && a'.oldFramebuffer == a.oldFramebuffer && a'.framebuffer == a.framebuffer
  {
    var side := CursorSide(width, height);
    if side.Some? {
      ConstructOutcome(a, side.value, side.value, space, f);
      var (k1, made) := Construct(a.kernel, side.value, side.value, space, f);
      if made.Some? {
        TakeCursorEffect(a, k1, made.value, hotX, hotY, f);
      }
    }
  }

  lemma TakeCursorEffect(a: Accel, k: Kernel, b: Bitmap, hotX: int, hotY: int, f: Faults)
    requires WithNew(a, k, b) && k.scanout == a.kernel.scanout && a.kernel.next <= b.memory
    ensures var a' := TakeCursor(a, k, b, hotX, hotY, f).0;
            && a'.kernel.next >= a.kernel.next
            && OldOrNew(a'.cursor, a) && OldOrNew(a'.newCursor, a)
            && a'.oldFramebuffer == a.oldFramebuffer && a'.framebuffer == a.framebuffer
  {
    NewCursorKeepsInv(a, k, b);
    var (k2, n', tmp) := MoveAssign(k, a.newCursor, b);
    UpdateCursorEffect(a.(kernel := k2, newCursor := n', hotX := hotX, hotY := hotY), true, true, f);
  }

  lemma DoEffect(a: Accel, op: Op, f: Faults)
    requires Inv(a)
    ensures var a' := Do(a, op, f).0;
            && a'.kernel.next >= a.kernel.next
            && OldOrNew(a'.cursor, a) && OldOrNew(a'.newCursor, a)
            && (SetsMode(a, op, f) ==>
                  a'.oldFramebuffer == a.framebuffer && a'.framebuffer.memory >= a.kernel.next)
            && (!SetsMode(a, op, f) ==>
                  a'.oldFramebuffer == a.oldFramebuffer && a'.framebuffer == a.framebuffer)
  {
    match op
    case SetMode(m) => SetDisplayModeEffect(a, m, f);
    case SetCursor(w, h, x, y, space) => SetCursorBitmapEffect(a, w, h, x, y, space, f);
    case Show(v) => UpdateCursorEffect(a.(visible := !a.visible), true, false, f);
    case Move(x, y) => UpdateCursorEffect(a.(posX := x, posY := y), false, true, f);
  }

  /** No bitmap of a owns the memory object, and none ever will. */
  ghost predicate Gone(a: Accel, memory: nat) {
    && memory < a.kernel.next
    && forall b :: b in {a.oldFramebuffer, a.framebuffer, a.cursor, a.newCursor} && IsSet(b) ==> b.memory != memory
  }

  lemma DoKeepsGone(a: Accel, op: Op, f: Faults, memory: nat)
    requires Inv(a) && Gone(a, memory)
    ensures Gone(Do(a, op, f).0, memory)
  {
    DoEffect(a, op, f);
  }

  /** Memory objects of different bitmaps differ. */
  lemma OldIsGone(a: Accel, op: Op, f: Faults)
    requires Inv(a) && IsSet(a.oldFramebuffer) && SetsMode(a, op, f)
    ensures Gone(Do(a, op, f).0, a.oldFramebuffer.memory)
  {
    DoEffect(a, op, f);
    var old' := a.oldFramebuffer;
    forall b | b in {a.framebuffer, a.cursor, a.newCursor} && IsSet(b) ensures b.memory != old'.memory {
      assert Memory(b.memory) in Owned(b);
      assert Memory(old'.memory) in Owned(old');
    }
  }

  lemma {:induction false} GoneStays(a: Accel, ops: seq<(Op, Faults)>, memory: nat, linear: nat)
    requires Inv(a) && Gone(a, memory)
    ensures Mapped(memory, linear) !in Run(a, ops).kernel.live
    decreases |ops|
  {
    if ops != [] {
      DoKeepsInv(a, ops[0].0, ops[0].1);
      DoKeepsGone(a, ops[0].0, ops[0].1, memory);
      GoneStays(Do(a, ops[0].0, ops[0].1).0, ops[1..], memory, linear);
    }
  }

  lemma {:induction false} OldMappingSurvivesIff(a: Accel, ops: seq<(Op, Faults)>)
    requires Inv(a) && IsSet(a.oldFramebuffer)
    ensures var b := a.oldFramebuffer;
            Mapped(b.memory, b.mapping.linear) in Run(a, ops).kernel.live <==> ModeSets(a, ops) == 0
    decreases |ops|
  {
    if ops != [] {
      var (op, f) := ops[0];
      var a1 := Do(a, op, f).0;
      DoKeepsInv(a, op, f);
      DoEffect(a, op, f);
      if SetsMode(a, op, f) {
        OldIsGone(a, op, f);
        GoneStays(a1, ops[1..], a.oldFramebuffer.memory, a.oldFramebuffer.mapping.linear);
      } else {
        OldMappingSurvivesIff(a1, ops[1..]);
      }
    }
  }

  /** The mapping of the framebuffer that is current now stays alive through everything that
      happens until the second successful mode set, and not longer. */
  lemma {:induction false} FramebufferMappingSurvivesIff(a: Accel, ops: seq<(Op, Faults)>)
    requires Inv(a) && IsSet(a.framebuffer)
    ensures var b := a.framebuffer;
            Mapped(b.memory, b.mapping.linear) in Run(a, ops).kernel.live <==> ModeSets(a, ops) <= 1
    decreases |ops|
  {
    if ops != [] {
      var (op, f) := ops[0];
      var a1 := Do(a, op, f).0;
      DoKeepsInv(a, op, f);
      DoEffect(a, op, f);
      if SetsMode(a, op, f) {
        OldMappingSurvivesIff(a1, ops[1..]);
      } else {
        FramebufferMappingSurvivesIff(a1, ops[1..]);
      }
    }
  }

  // -- Operations that reach the constructor --

  /** The operation gets as far as the constructor, with these arguments. */
  function ConstructorSpace(op: Op, f: Faults): Option<ColorSpace> {
    match op
    case SetMode(m) =>
      if Refused(m, f) then None else Some(m.space)
    case SetCursor(w, h, _, _, space) => if CursorSide(w, h).None? then None else Some(space)
    case _ => None
  }

  /** The operation completes a bitmap, whatever happens to it afterwards. */
  predicate MakesBitmap(op: Op, f: Faults) {
    ConstructorSpace(op, f).Some? && Constructs(ConstructorSpace(op, f).value, f)
  }
}
