/** Whether the cursor on the screen is what the accelerant takes it to be, over every run. */
module CursorVisibility {
  import opened Common
  import opened CursorImages
  import opened Ownership
  import opened OwnershipRuns

  /** There is an image to show: the present cursor, or one that waits to take its place. */
  predicate HasImage(a: Accel) {
    IsSet(a.cursor) || IsSet(a.newCursor)
  }

  /** A cursor is on the screen exactly when there is an image and the accelerant takes it to be
      visible. */
  ghost predicate OnScreen(a: Accel) {
    a.kernel.cursor != 0 <==> a.visible && HasImage(a)
  }

  /** The operation gets as far as the cursor image call. */
  predicate CallsImage(a: Accel, op: Op, f: Faults) {
    (op.Show? && op.isVisible != a.visible) || (op.SetCursor? && MakesBitmap(op, f) && a.visible)
  }

  /** ShowCursor flips its flag before the call that fails. */
  predicate FailsToggling(a: Accel, op: Op, f: Faults) {
    op.Show? && op.isVisible != a.visible && f.image
  }

  /** The first image ever, while the flag is already up, and the call that should show it fails. */
  predicate FailsFirstImage(a: Accel, op: Op, f: Faults) {
    op.SetCursor? && MakesBitmap(op, f) && a.visible && f.image && !HasImage(a)
  }

  ghost predicate SamePlace(a: Accel, a': Accel) {
    a'.posX == a.posX && a'.posY == a.posY && a'.hotX == a.hotX && a'.hotY == a.hotY
  }

  /** What the kernel shows and what it might show are as before. */
  ghost predicate SameImages(a: Accel, a': Accel) {
    && a'.kernel.cursor == a.kernel.cursor
    && a'.cursor.surface == a.cursor.surface && a'.newCursor.surface == a.newCursor.surface
  }

  // -- The operations --

  lemma MoveKeepsCursor(k: Kernel, dst: Bitmap, src: Bitmap)
    ensures var (k', dst', src') := MoveAssign(k, dst, src);
            k'.cursor == k.cursor && dst'.surface == src.surface && src'.surface == 0
  {
  }

  lemma DestroyKeepsCursor(k: Kernel, b: Bitmap)
    ensures Destroy(k, b).cursor == k.cursor
  {
  }

  lemma CommitImages(a: Accel, k: Kernel, b: Bitmap, m: ModeRequest, f: Faults)
    requires k.cursor == a.kernel.cursor
    ensures var a' := Commit(a, k, b, m, f).0;
            a'.visible == a.visible && SamePlace(a, a') && SameImages(a, a')
  {
  }

  lemma SetDisplayModeImages(a: Accel, m: ModeRequest, f: Faults)
    requires Inv(a)
    ensures var a' := SetDisplayMode(a, m, f).0;
            a'.visible == a.visible && SamePlace(a, a') && SameImages(a, a')
  {
    if !Refused(m, f) {
      ConstructOutcome(a, m.virtualWidth, m.virtualHeight, m.space, f);
      var (k1, made) := Construct(a.kernel, m.virtualWidth, m.virtualHeight, m.space, f);
      if made.Some? {
        CommitImages(a, k1, made.value, m, f);
      }
    }
  }

  /** A successful image call shows the newest image, or none, and nothing waits any more. */
  lemma UpdateCursorImages(a: Accel, updateImage: bool, updatePos: bool, f: Faults)
    ensures var a' := UpdateCursor(a, updateImage, updatePos, f).0;
            && a'.visible == a.visible && SamePlace(a, a')
            && (!updateImage || f.image ==> SameImages(a, a') && a'.cursor == a.cursor && a'.newCursor == a.newCursor)
            && (updateImage && f.image ==> a' == a)
            && (updateImage && !f.image ==>
                  && !IsSet(a'.newCursor) && (HasImage(a') <==> HasImage(a))
                  && a'.kernel.cursor == if a.visible then a'.cursor.surface else 0)
  {
  }

  lemma TakeCursorImages(a: Accel, k: Kernel, b: Bitmap, hotX: int, hotY: int, f: Faults)
    requires IsSet(b) && k.cursor == a.kernel.cursor
    ensures var a' := TakeCursor(a, k, b, hotX, hotY, f).0;
            && a'.visible == a.visible && SamePlace(a.(hotX := hotX, hotY := hotY), a')
            && HasImage(a')
            && (a.visible && !f.image ==> a'.kernel.cursor == a'.cursor.surface != 0 && !IsSet(a'.newCursor))
            && (!a.visible || f.image ==>
                  a'.kernel.cursor == a.kernel.cursor && a'.cursor == a.cursor && IsSet(a'.newCursor))
  {
    var (k2, n', tmp) := MoveAssign(k, a.newCursor, b);
    MoveKeepsCursor(k, a.newCursor, b);
    var a1 := a.(kernel := k2, newCursor := n', hotX := hotX, hotY := hotY);
    UpdateCursorImages(a1, true, true, f);
    DestroyKeepsCursor(if a1.visible then UpdateCursor(a1, true, true, f).0.kernel else k2, tmp);
  }

  lemma SetCursorBitmapImages(a: Accel, width: nat, height: nat, hotX: int, hotY: int, space: ColorSpace, f: Faults)
    requires Inv(a)
    ensures var a' := SetCursorBitmap(a, width, height, hotX, hotY, space, f).0;
            var made := MakesBitmap(SetCursor(width, height, hotX, hotY, space), f);
            && a'.visible == a.visible
            && SamePlace(if made then a.(hotX := hotX, hotY := hotY) else a, a')
            && (!made ==> SameImages(a, a'))
            && (made && a.visible && !f.image ==>
                  a'.kernel.cursor == a'.cursor.surface != 0 && !IsSet(a'.newCursor))
            && (made && (!a.visible || f.image) ==>
                  a'.kernel.cursor == a.kernel.cursor && a'.cursor == a.cursor && IsSet(a'.newCursor))
  {
    var op := SetCursor(width, height, hotX, hotY, space);
    var side := CursorSide(width, height);
    if side.Some? && Constructs(space, f) {
      assert MakesBitmap(op, f);
      ConstructOutcome(a, side.value, side.value, space, f);
      var (k1, made) := Construct(a.kernel, side.value, side.value, space, f);
      TakeCursorImages(a, k1, made.value, hotX, hotY, f);
    } else {
      assert !MakesBitmap(op, f);
      if side.Some? {
        ConstructOutcome(a, side.value, side.value, space, f);
      }
    }
  }

  lemma ShowCursorImages(a: Accel, isVisible: bool, f: Faults)
    ensures var a' := ShowCursor(a, isVisible, f).0;
            && a'.visible == isVisible && SamePlace(a, a')
            && (isVisible == a.visible ==> a' == a)
            && (isVisible != a.visible && f.image ==> SameImages(a, a'))
            && (isVisible != a.visible && !f.image ==>
                  && !IsSet(a'.newCursor) && (HasImage(a') <==> HasImage(a))
                  && a'.kernel.cursor == if isVisible then a'.cursor.surface else 0)
  {
    UpdateCursorImages(a.(visible := !a.visible), true, false, f);
  }

  // -- On the screen or not --

  /** One operation: a cursor image call that succeeds makes screen and flag agree; a failed toggle
      of an image that exists turns agreement into disagreement and back; a first image whose call
      fails under a raised flag makes them disagree; nothing else matters. The flag, the position
      and the hot spot are those last asked for. */
  lemma DoOnScreen(a: Accel, op: Op, f: Faults)
    requires Inv(a)
    ensures var a' := Do(a, op, f).0;
            && (OnScreen(a') <==>
                  if CallsImage(a, op, f) && !f.image then true
                  else if FailsToggling(a, op, f) && HasImage(a) then !OnScreen(a)
                  else if FailsFirstImage(a, op, f) then false
                  else OnScreen(a))
            && a'.visible == (if op.Show? then op.isVisible else a.visible)
            && SamePlace(Placed(a, op, f), a')
  {
    match op
    case SetMode(m) => SetDisplayModeImages(a, m, f);
    case SetCursor(w, h, x, y, space) => SetCursorBitmapImages(a, w, h, x, y, space, f);
    case Show(v) => ShowCursorImages(a, v, f);
    case Move(x, y) => UpdateCursorImages(a.(posX := x, posY := y), false, true, f);
  }

  /** Position and hot spot as the operation asks for them. */
  ghost function Placed(a: Accel, op: Op, f: Faults): Accel {
    if op.Move? then a.(posX := op.x, posY := op.y)
    else if op.SetCursor? && MakesBitmap(op, f) then a.(hotX := op.hotX, hotY := op.hotY)
    else a
  }

  /** Whether screen and flag disagree after a run: since the last successful image call an odd
      number of toggles of an image has failed, counting a first image that failed under a raised
      flag as one of them. */
  ghost function Off(a: Accel, ops: seq<(Op, Faults)>, off: bool): bool
    decreases |ops|
  {
    if ops == [] then off
    else
      var (op, f) := ops[0];
      Off(Do(a, op, f).0, ops[1..],
          if CallsImage(a, op, f) && !f.image then false
          else if FailsToggling(a, op, f) && HasImage(a) then !off
          else if FailsFirstImage(a, op, f) then true
          else off)
  }

  /** After any run a cursor is on the screen exactly when the accelerant takes it to be visible and
      has an image, unless the failures since the last successful image call leave them apart. */
  lemma {:induction false} OnScreenIff(a: Accel, ops: seq<(Op, Faults)>)
    requires Inv(a)
    ensures OnScreen(Run(a, ops)) <==> !Off(a, ops, !OnScreen(a))
    decreases |ops|
  {
    if ops != [] {
      DoKeepsInv(a, ops[0].0, ops[0].1);
      DoOnScreen(a, ops[0].0, ops[0].1);
      OnScreenIff(Do(a, ops[0].0, ops[0].1).0, ops[1..]);
    }
  }

  // -- The newest image or an older one --

  /** What the last calls ask for is what the kernel shows: the newest image, or none. */
  ghost predicate UpToDate(a: Accel) {
    a.kernel.cursor ==
      if !a.visible then 0 else if IsSet(a.newCursor) then a.newCursor.surface else a.cursor.surface
  }

  /** It is unless there is no agreement about whether to show, or a newer image waits while one is
      to be shown. */
  lemma UpToDateNow(a: Accel)
    requires Inv(a)
    ensures UpToDate(a) <==> OnScreen(a) && !(a.visible && IsSet(a.newCursor))
  {
    DifferentSurfaces(a, a.cursor, a.newCursor);
  }

  /** Whether an image waits after a run: one was completed and no image call has succeeded since. */
  ghost function Waits(a: Accel, ops: seq<(Op, Faults)>, waits: bool): bool
    decreases |ops|
  {
    if ops == [] then waits
    else
      var (op, f) := ops[0];
      Waits(Do(a, op, f).0, ops[1..],
            if CallsImage(a, op, f) && !f.image then false
            else waits || (op.SetCursor? && MakesBitmap(op, f)))
  }

  /** Whether the last ShowCursor, if any, was to show it. */
  function LastShown(ops: seq<(Op, Faults)>, visible: bool): bool
    decreases |ops|
  {
    if ops == [] then visible
    else LastShown(ops[1..], if ops[0].0.Show? then ops[0].0.isVisible else visible)
  }

  lemma DoWaits(a: Accel, op: Op, f: Faults)
    requires Inv(a)
    ensures IsSet(Do(a, op, f).0.newCursor) <==>
              !(CallsImage(a, op, f) && !f.image) && (IsSet(a.newCursor) || (op.SetCursor? && MakesBitmap(op, f)))
  {
    match op
    case SetMode(m) => SetDisplayModeImages(a, m, f);
    case SetCursor(w, h, x, y, space) => SetCursorBitmapImages(a, w, h, x, y, space, f);
    case Show(v) => ShowCursorImages(a, v, f);
    case Move(x, y) => UpdateCursorImages(a.(posX := x, posY := y), false, true, f);
  }

  lemma {:induction false} WaitsIff(a: Accel, ops: seq<(Op, Faults)>)
    requires Inv(a)
    ensures IsSet(Run(a, ops).newCursor) <==> Waits(a, ops, IsSet(a.newCursor))
    ensures Run(a, ops).visible == LastShown(ops, a.visible)
    decreases |ops|
  {
    if ops != [] {
      DoKeepsInv(a, ops[0].0, ops[0].1);
      DoWaits(a, ops[0].0, ops[0].1);
      DoOnScreen(a, ops[0].0, ops[0].1);
      WaitsIff(Do(a, ops[0].0, ops[0].1).0, ops[1..]);
    }
  }

  /** After any run the screen shows what was last asked for, the newest image or none, unless the
      failures leave flag and screen apart, or the cursor was last to be shown and an image still
      waits. */
  lemma UpToDateIff(a: Accel, ops: seq<(Op, Faults)>)
    requires Inv(a)
    ensures UpToDate(Run(a, ops)) <==>
              !Off(a, ops, !OnScreen(a)) && !(LastShown(ops, a.visible) && Waits(a, ops, IsSet(a.newCursor)))
  {
    RunKeepsInv(a, ops);
    OnScreenIff(a, ops);
    WaitsIff(a, ops);
    UpToDateNow(Run(a, ops));
  }

  // -- The inputs that show it --

  const SMALL_CURSOR: Op := SetCursor(16, 16, 0, 0, RGB32)

  /** A cursor is set and shown, then hiding it fails. It stays on the screen, and hiding it once
      more is not even tried. */
  lemma HiddenCursorStays(a: Accel, works: Faults, fails: Faults)
    requires Init(a) && Constructs(RGB32, works) && !works.image && fails.image
    ensures var a1 := Do(a, SMALL_CURSOR, works).0;
            var a2 := Do(a1, Show(true), works).0;
            var a3 := Do(a2, Show(false), fails).0;
            && !a3.visible && a3.kernel.cursor == a3.cursor.surface != 0 && !OnScreen(a3)
            && Do(a3, Show(false), works).0 == a3
  {
    InitInv(a);
    var a1 := Do(a, SMALL_CURSOR, works).0;
    SetCursorBitmapImages(a, 16, 16, 0, 0, RGB32, works);
    var a2 := Do(a1, Show(true), works).0;
    ShowCursorImages(a1, true, works);
    ShowCursorImages(a2, false, fails);
  }

  /** A cursor is set, then showing it fails. The screen stays blank, and showing it once more is
      not even tried. */
  lemma FirstShowIsLost(a: Accel, works: Faults, fails: Faults)
    requires Init(a) && Constructs(RGB32, works) && fails.image
    ensures var a1 := Do(a, SMALL_CURSOR, works).0;
            var a2 := Do(a1, Show(true), fails).0;
            && a2.visible && IsSet(a2.newCursor) && a2.kernel.cursor == 0 && !OnScreen(a2)
            && Do(a2, Show(true), works).0 == a2
  {
    InitInv(a);
    var a1 := Do(a, SMALL_CURSOR, works).0;
    SetCursorBitmapImages(a, 16, 16, 0, 0, RGB32, works);
    ShowCursorImages(a1, true, fails);
  }

  /** The cursor is to be shown before there is one, then the call for the first one fails. */
  lemma FirstImageIsLost(a: Accel, works: Faults, fails: Faults)
    requires Init(a) && !works.image && Constructs(RGB32, fails) && fails.image
    ensures var a1 := Do(a, Show(true), works).0;
            var a2 := Do(a1, SMALL_CURSOR, fails).0;
            OnScreen(a1) && a2.visible && IsSet(a2.newCursor) && a2.kernel.cursor == 0 && !OnScreen(a2)
  {
    InitInv(a);
    var a1 := Do(a, Show(true), works).0;
    ShowCursorImages(a, true, works);
    DoKeepsInv(a, Show(true), works);
    SetCursorBitmapImages(a1, 16, 16, 0, 0, RGB32, fails);
  }
}
