/** Where the kernel has the cursor, over every run: a call that moves it uses the position and hot
    spot of that moment, and no other call moves it. */
module CursorPlaces {
  import opened Common
  import opened CursorImages
  import opened Ownership
  import opened OwnershipRuns
  import opened Outcomes
  import opened CursorVisibility

  /** A conversion to NvS16 keeps the low 16 bits, and small numbers as they are. */
  lemma Signed16Keeps(x: int)
    ensures -0x8000 <= Signed16(x) < 0x8000
    ensures (Signed16(x) - x) % 0x1_0000 == 0
    ensures -0x8000 <= x < 0x8000 ==> Signed16(x) == x
  {
  }

  /** Where the corner of the image belongs. */
  function Spot(a: Accel): (int, int) {
    (Signed16(a.posX - a.hotX), Signed16(a.posY - a.hotY))
  }

  /** The operation gets as far as a position call, and that succeeds. */
  predicate Places(a: Accel, op: Op, f: Faults) {
    !f.position && (op.Move? || (op.SetCursor? && MakesBitmap(op, f) && a.visible && !f.image))
  }

  lemma UpdateCursorPlaces(a: Accel, updateImage: bool, updatePos: bool, f: Faults)
    ensures UpdateCursor(a, updateImage, updatePos, f).0.kernel.at ==
              if updatePos && !f.position && !(updateImage && f.image) then Spot(a) else a.kernel.at
  {
    MoveKeepsPlace(SelectCursor(a.kernel, 0), a.cursor, a.newCursor);
  }

  lemma MoveKeepsPlace(k: Kernel, dst: Bitmap, src: Bitmap)
    ensures MoveAssign(k, dst, src).0.at == k.at
  {
  }

  lemma ConstructKeepsPlace(k: Kernel, width: nat, height: nat, space: ColorSpace, f: Faults)
    ensures Construct(k, width, height, space, f).0.at == k.at
  {
  }

  lemma CommitKeepsPlace(a: Accel, k: Kernel, b: Bitmap, m: ModeRequest, f: Faults)
    ensures Commit(a, k, b, m, f).0.kernel.at == k.at
  {
  }

  lemma SetDisplayModeKeepsPlace(a: Accel, m: ModeRequest, f: Faults)
    ensures SetDisplayMode(a, m, f).0.kernel.at == a.kernel.at
  {
    if !Refused(m, f) {
      ConstructKeepsPlace(a.kernel, m.virtualWidth, m.virtualHeight, m.space, f);
      var (k1, made) := Construct(a.kernel, m.virtualWidth, m.virtualHeight, m.space, f);
      if made.Some? {
        CommitKeepsPlace(a, k1, made.value, m, f);
      }
    }
  }

  lemma TakeCursorPlaces(a: Accel, k: Kernel, b: Bitmap, hotX: int, hotY: int, f: Faults)
    ensures TakeCursor(a, k, b, hotX, hotY, f).0.kernel.at ==
              if a.visible && !f.image && !f.position then Spot(a.(hotX := hotX, hotY := hotY)) else k.at
  {
    MoveKeepsPlace(k, a.newCursor, b);
    var (k2, n', tmp) := MoveAssign(k, a.newCursor, b);
    UpdateCursorPlaces(a.(kernel := k2, newCursor := n', hotX := hotX, hotY := hotY), true, true, f);
  }

  lemma SetCursorBitmapPlaces(a: Accel, width: nat, height: nat, hotX: int, hotY: int, space: ColorSpace, f: Faults)
    ensures var op := SetCursor(width, height, hotX, hotY, space);
            SetCursorBitmap(a, width, height, hotX, hotY, space, f).0.kernel.at ==
              if Places(a, op, f) then Spot(a.(hotX := hotX, hotY := hotY)) else a.kernel.at
  {
    var op := SetCursor(width, height, hotX, hotY, space);
    var side := CursorSide(width, height);
    if side.Some? && Constructs(space, f) {
      assert MakesBitmap(op, f);
      MakeCursorPlaces(a, side.value, hotX, hotY, space, f);
    } else {
      assert !MakesBitmap(op, f);
      if side.Some? {
        MakeCursorPlaces(a, side.value, hotX, hotY, space, f);
      }
    }
  }

  lemma MakeCursorPlaces(a: Accel, side: nat, hotX: int, hotY: int, space: ColorSpace, f: Faults)
    ensures MakeCursor(a, side, hotX, hotY, space, f).0.kernel.at ==
              if Constructs(space, f) && a.visible && !f.image && !f.position
              then Spot(a.(hotX := hotX, hotY := hotY)) else a.kernel.at
  {
    ConstructKeepsPlace(a.kernel, side, side, space, f);
    ConstructsIff(a.kernel, side, side, space, f);
    var (k1, made) := Construct(a.kernel, side, side, space, f);
    if made.Some? {
      TakeCursorPlaces(a, k1, made.value, hotX, hotY, f);
    }
  }

  lemma DoSpot(a: Accel, op: Op, f: Faults)
    requires Inv(a)
    ensures Spot(Do(a, op, f).0) == Spot(Placed(a, op, f))
  {
    DoOnScreen(a, op, f);
  }

  /** One operation: the cursor goes where it belongs afterwards, or stays where it was. */
  lemma DoPlaces(a: Accel, op: Op, f: Faults)
    requires Inv(a)
    ensures var a' := Do(a, op, f).0;
            a'.kernel.at == if Places(a, op, f) then Spot(a') else a.kernel.at
  {
    DoSpot(a, op, f);
    match op
    case SetMode(m) => SetDisplayModeKeepsPlace(a, m, f);
    case SetCursor(w, h, x, y, space) => SetCursorBitmapPlaces(a, w, h, x, y, space, f);
    case Show(v) => ShowPlaces(a, v, f);
    case Move(x, y) => UpdateCursorPlaces(a.(posX := x, posY := y), false, true, f);
  }

  lemma ShowPlaces(a: Accel, isVisible: bool, f: Faults)
    ensures ShowCursor(a, isVisible, f).0.kernel.at == a.kernel.at
  {
    UpdateCursorPlaces(a.(visible := !a.visible), true, false, f);
  }

  /** Where the cursor belonged at the last successful position call. */
  ghost function LastSpot(a: Accel, ops: seq<(Op, Faults)>, at: (int, int)): (int, int)
    decreases |ops|
  {
    if ops == [] then at
    else
      var (op, f) := ops[0];
      var a' := Do(a, op, f).0;
      LastSpot(a', ops[1..], if Places(a, op, f) then Spot(a') else at)
  }

  /** After any run. */
  lemma {:induction false} PlaceIsLastSpot(a: Accel, ops: seq<(Op, Faults)>)
    requires Inv(a)
    ensures Run(a, ops).kernel.at == LastSpot(a, ops, a.kernel.at)
    decreases |ops|
  {
    if ops != [] {
      var (op, f) := ops[0];
      DoKeepsInv(a, op, f);
      DoPlaces(a, op, f);
      PlaceIsLastSpot(Do(a, op, f).0, ops[1..]);
    }
  }

  /** A hot spot that changes while the cursor is hidden takes effect only with the next move: showing
      the cursor does not place it. */
  lemma HotSpotIsLate(a: Accel, works: Faults)
    requires Init(a) && a.hotX == a.hotY == 0
    requires Constructs(RGB32, works) && !works.image && !works.position
    ensures var a1 := Do(a, Move(100, 100), works).0;
            var a2 := Do(a1, SetCursor(16, 16, 8, 8, RGB32), works).0;
            var a3 := Do(a2, Show(true), works).0;
            a3.visible && OnScreen(a3) && a3.kernel.at == (100, 100) && Spot(a3) == (92, 92)
  {
    InitInv(a);
    var a1 := Do(a, Move(100, 100), works).0;
    DoKeepsInv(a, Move(100, 100), works);
    DoOnScreen(a, Move(100, 100), works);
    DoPlaces(a, Move(100, 100), works);
    var op := SetCursor(16, 16, 8, 8, RGB32);
    var a2 := Do(a1, op, works).0;
    DoKeepsInv(a1, op, works);
    DoOnScreen(a1, op, works);
    DoPlaces(a1, op, works);
    DoOnScreen(a2, Show(true), works);
    DoPlaces(a2, Show(true), works);
  }
}
