/** When an operation of the accelerant returns normally, and what it has made then. */
module Outcomes {
  import opened Common
  import opened Surfaces
  import opened CursorImages
  import opened Ownership
  import opened OwnershipRuns

  /** A mode set returns normally exactly when the request is plain, has a total, and no call fails.
      Then the request is current, and a new framebuffer of its size, pitch and colour space is
      scanned out; the one before is kept. Otherwise fields and framebuffers are as they were. */
  lemma ModeSetOutcome(a: Accel, m: ModeRequest, f: Faults)
    requires Inv(a)
    ensures var (a', outcome) := SetDisplayMode(a, m, f);
            && (outcome == Returned <==>
                  && m.virtualWidth == m.hDisplay && m.virtualHeight == m.vDisplay && m.hStart == 0 && m.vStart == 0
                  && m.hTotal > 0 && m.vTotal > 0
                  && !f.validate && Constructs(m.space, f) && !f.commit)
            && (outcome == Returned ==>
                  && a'.current == Some(m) && Shaped(a'.framebuffer, m.hDisplay, m.vDisplay, m.space)
                  && a'.framebuffer.memory >= a.kernel.next && a'.kernel.scanout == a'.framebuffer.surface
                  && a'.oldFramebuffer == a.framebuffer)
            && (outcome != Returned ==>
                  && a' == a.(kernel := a'.kernel)
                  && a'.kernel.scanout == a.kernel.scanout)
  {
    ModeSetDividesIff(a, m, f);
    if m.hTotal > 0 && m.vTotal > 0 {
      assert m.hTotal * m.vTotal >= m.vTotal;
    }
    if !Refused(m, f) {
      ConstructOutcome(a, m.virtualWidth, m.virtualHeight, m.space, f);
      var (k1, made) := Construct(a.kernel, m.virtualWidth, m.virtualHeight, m.space, f);
      if made.Some? {
        CommitOutcome(a, k1, made.value, m, f);
        CommitScansOut(a, k1, made.value, m, f);
      } else {
        ConstructKeepsScanout(a.kernel, m.virtualWidth, m.virtualHeight, m.space, f);
      }
    }
  }

  lemma ConstructKeepsScanout(k: Kernel, width: nat, height: nat, space: ColorSpace, f: Faults)
    ensures Construct(k, width, height, space, f).0.scanout == k.scanout
  {
  }

  lemma CommitScansOut(a: Accel, k: Kernel, b: Bitmap, m: ModeRequest, f: Faults)
    ensures var a' := Commit(a, k, b, m, f).0;
            && a'.kernel.scanout == (if f.commit then k.scanout else b.surface)
            && (!f.commit ==> a'.current == Some(m))
  {
  }

  /** The image that was completed last: the one that waits, or the cursor. */
  function Newest(a: Accel): Bitmap {
    if IsSet(a.newCursor) then a.newCursor else a.cursor
  }

  /** A cursor request returns normally exactly when it fits, the bitmap can be made, and, if the
      cursor is visible, neither of the two calls that show it fails. Whenever the bitmap is made it
      is a new one, the smallest square that holds the request, with its pitch and colour space;
      otherwise only the kernel may have changed. */
  lemma SetCursorOutcome(a: Accel, width: nat, height: nat, hotX: int, hotY: int, space: ColorSpace, f: Faults)
    requires Inv(a)
    ensures var (a', ok) := SetCursorBitmap(a, width, height, hotX, hotY, space, f);
            var b := Newest(a');
            var made := (exists s: nat :: Fits(s, width, height)) && Constructs(space, f);
            && (ok <==> made && (a.visible ==> !f.image && !f.position))
            && (made ==>
                  && b.width == b.height && Fits(b.width, width, height)
                  && (forall s: nat :: Fits(s, width, height) ==> b.width <= s)
                  && Shaped(b, b.width, b.width, space) && b.memory >= a.kernel.next)
            && (!made ==> a' == a.(kernel := a'.kernel))
  {
    CursorSideIsLeast(width, height);
    var side := CursorSide(width, height);
    if side.Some? {
      assert Fits(side.value, width, height);
      MadeCursor(a, side.value, hotX, hotY, space, f);
    }
  }

  lemma MadeCursor(a: Accel, side: nat, hotX: int, hotY: int, space: ColorSpace, f: Faults)
    requires Inv(a)
    ensures var (a', ok) := MakeCursor(a, side, hotX, hotY, space, f);
            && (ok <==> Constructs(space, f) && (a.visible ==> !f.image && !f.position))
            && (Constructs(space, f) ==>
                  Shaped(Newest(a'), side, side, space) && Newest(a').memory >= a.kernel.next)
            && (!Constructs(space, f) ==> a' == a.(kernel := a'.kernel))
  {
    ConstructOutcome(a, side, side, space, f);
    var (k1, made) := Construct(a.kernel, side, side, space, f);
    if made.Some? {
      TakenCursor(a, k1, made.value, hotX, hotY, f);
    }
  }

  lemma TakenCursor(a: Accel, k: Kernel, b: Bitmap, hotX: int, hotY: int, f: Faults)
    requires WithNew(a, k, b) && k.scanout == a.kernel.scanout
    ensures var (a', ok) := TakeCursor(a, k, b, hotX, hotY, f);
            Newest(a') == b && (ok <==> (a.visible ==> !f.image && !f.position))
  {
    NewCursorKeepsInv(a, k, b);
    var (k2, n', tmp) := MoveAssign(k, a.newCursor, b);
    var a1 := a.(kernel := k2, newCursor := n', hotX := hotX, hotY := hotY);
    UpdateKeepsNewest(a1, true, true, f);
  }

  lemma UpdateKeepsNewest(a: Accel, updateImage: bool, updatePos: bool, f: Faults)
    requires Inv(a)
    ensures var (a', ok) := UpdateCursor(a, updateImage, updatePos, f);
            && (IsSet(a.newCursor) || IsSet(a.cursor) ==> Newest(a') == Newest(a))
            && (ok <==> !(updateImage && f.image) && !(updatePos && f.position))
  {
    if updateImage {
      ShowKeepsNewest(a);
    }
  }

  lemma ShowKeepsNewest(a: Accel)
    requires Inv(a)
    ensures IsSet(a.newCursor) || IsSet(a.cursor) ==> Newest(ShowNewest(a)) == Newest(a)
  {
  }

  /** Which operations return normally. */
  lemma SucceedsIff(a: Accel, op: Op, f: Faults)
    requires Inv(a)
    ensures Do(a, op, f).1 <==>
              match op
              case SetMode(m) =>
                && m.virtualWidth == m.hDisplay && m.virtualHeight == m.vDisplay && m.hStart == 0 && m.vStart == 0
                && m.hTotal > 0 && m.vTotal > 0 && !f.validate && Constructs(m.space, f) && !f.commit
              case SetCursor(w, h, _, _, space) =>
                w <= 256 && h <= 256 && Constructs(space, f) && (a.visible ==> !f.image && !f.position)
              case Show(v) => v == a.visible || !f.image
              case Move(_, _) => !f.position
  {
    match op
    case SetMode(m) => ModeSetOutcome(a, m, f);
    case SetCursor(w, h, x, y, space) =>
      SetCursorOutcome(a, w, h, x, y, space, f);
      CursorSideIsLeast(w, h);
    case Show(v) => UpdateKeepsNewest(a.(visible := !a.visible), true, false, f);
    case Move(x, y) => UpdateKeepsNewest(a.(posX := x, posY := y), false, true, f);
  }

  /** The bitmap constructor needs a 32-bit colour space and five calls that succeed. */
  lemma ConstructsIff(k: Kernel, width: nat, height: nat, space: ColorSpace, f: Faults)
    ensures Construct(k, width, height, space, f).1.Some? <==>
              (space == RGB32 || space == RGBA32) && !f.alloc && !f.export_ && !f.register && !f.map_ && !f.area
  {
  }
}
