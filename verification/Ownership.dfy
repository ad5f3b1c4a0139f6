/** Who owns the kernel-side resources of the accelerant: four move-only bitmaps, each a memory
    object, a registered surface and a mapping. Values and transitions; the classes that carry
    them out are in Accelerant.dfy. */
module Ownership {
  import opened Common
  import opened Surfaces
  import opened CursorImages

  datatype ColorSpace = NoColorSpace | RGB32 | RGBA32 | OtherSpace

  /** NvRmMemoryMapping. address 0 means not set; the move assignment leaves area alone. */
  datatype Mapping = Mapping(hMemory: nat, linear: nat, address: nat, area: int)

  /** NvKmsBitmap: an NvRmObject, an NvKmsSurface, an NvRmMemoryMapping, and the geometry.
      Handle 0 means not set. */
  datatype Bitmap = Bitmap(
    memory: nat, surface: nat, mapping: Mapping,
    width: nat, height: nat, bytesPerRow: nat, colorSpace: ColorSpace)

  const EMPTY: Bitmap := Bitmap(0, 0, Mapping(0, 0, 0, -1), 0, 0, 0, NoColorSpace)

  /** What the kernel keeps for the accelerant: a memory object, a registered surface and the
      memory behind it, an RM mapping of a memory object. */
  datatype Resource =
    | Memory(h: nat)
    | Surface(s: nat, h: nat)
    | Mapped(h: nat, linear: nat)

  /** The kernel as the accelerant sees it. `misuse` records a release of something that is not
      there, is still selected, or is released before what depends on it. */
  datatype Kernel = Kernel(
    live: set<Resource>,
    stray: set<Resource>,   // RM mappings whose second MapMemory call failed
    areas: set<int>,        // Haiku areas of the mappings
    scanout: nat,           // selected surfaces, 0 for none
    cursor: nat,
    at: (int, int),         // where the cursor is
    next: nat,              // every handle and address is new
    misuse: bool)

  /** Which kernel calls fail during one operation. Releases do not fail. */
  datatype Faults = Faults(
    validate: bool, alloc: bool, export_: bool, register: bool, map_: bool, area: bool,
    commit: bool, image: bool, position: bool)

  // -- Kernel calls --

  /** r keeps memory object h in use. */
  predicate Uses(r: Resource, h: nat) {
    !r.Memory? && r.h == h
  }

  function Unmap(k: Kernel, m: Mapping): Kernel {
    k.(areas := k.areas - {m.area},
       live := k.live - {Mapped(m.hMemory, m.linear)},
       misuse := k.misuse || Mapped(m.hMemory, m.linear) !in k.live)
  }

  function Unregister(k: Kernel, s: nat): Kernel {
    k.(live := (set r | r in k.live && !(r.Surface? && r.s == s)),
       misuse := k.misuse || s == k.scanout || s == k.cursor
                 || !(exists r :: r in k.live && r.Surface? && r.s == s)
                 || (exists r, m :: r in k.live && m in k.live && r.Surface? && r.s == s && m.Mapped? && m.h == r.h))
  }

  function FreeMemory(k: Kernel, h: nat): Kernel {
    k.(live := k.live - {Memory(h)},
       misuse := k.misuse || Memory(h) !in k.live || exists r :: r in k.live && Uses(r, h))
  }

  function SelectScanout(k: Kernel, s: nat): Kernel {
    k.(scanout := s, misuse := k.misuse || !(exists r :: r in k.live && r.Surface? && r.s == s))
  }

  function SelectCursor(k: Kernel, s: nat): Kernel {
    k.(cursor := s, misuse := k.misuse || (s != 0 && !(exists r :: r in k.live && r.Surface? && r.s == s)))
  }

  // -- NvKmsBitmap --

  function DropMapping(k: Kernel, m: Mapping): Kernel {
    if m.address != 0 then Unmap(k, m) else k
  }

  function DropSurface(k: Kernel, surface: nat): Kernel {
    if surface != 0 then Unregister(k, surface) else k
  }

  function DropMemory(k: Kernel, memory: nat): Kernel {
    if memory != 0 then FreeMemory(k, memory) else k
  }

  /** The destructor: members in reverse order of declaration. */
  function Destroy(k: Kernel, b: Bitmap): Kernel {
    DropMemory(DropSurface(DropMapping(k, b.mapping), b.surface), b.memory)
  }

  /** dst = std::move(src): kernel, dst and src afterwards. */
  function MoveAssign(k: Kernel, dst: Bitmap, src: Bitmap): (Kernel, Bitmap, Bitmap) {
    var k1 := DropMapping(k, dst.mapping);
    var k2 := DropSurface(k1, dst.surface);
    var k3 := DropMemory(k2, dst.memory);
    (k3,
     src.(mapping := src.mapping.(area := dst.mapping.area)),
     EMPTY.(mapping := src.mapping.(address := 0)))
  }

  /** The constructor, stopping at the first call that fails and releasing what it had. */
  function Construct(k: Kernel, width: nat, height: nat, colorSpace: ColorSpace, f: Faults)
    : (Kernel, Option<Bitmap>)
  {
    if !(colorSpace.RGB32? || colorSpace.RGBA32?) || f.alloc then (k, None)
    else
      var h := k.next;
      ConstructSurface(k.(live := k.live + {Memory(h)}, next := h + 1), h, width, height, colorSpace, f)
  }

  function ConstructSurface(k: Kernel, h: nat, width: nat, height: nat, colorSpace: ColorSpace, f: Faults)
    : (Kernel, Option<Bitmap>)
  {
    if f.export_ || f.register then (DropMemory(k, h), None)
    else
      var s := k.next;
      ConstructMapping(k.(live := k.live + {Surface(s, h)}, next := s + 1), h, s, width, height, colorSpace, f)
  }

  function ConstructMapping(k: Kernel, h: nat, s: nat, width: nat, height: nat, colorSpace: ColorSpace, f: Faults)
    : (Kernel, Option<Bitmap>)
  {
    var linear := k.next;
    if f.map_ then (DropMemory(DropSurface(k, s), h), None)
    else if f.area then
      (DropMemory(DropSurface(k.(stray := k.stray + {Mapped(h, linear)}, next := linear + 1), s), h), None)
    else
      (k.(live := k.live + {Mapped(h, linear)}, areas := k.areas + {linear + 1}, next := linear + 2),
       Some(Bitmap(h, s, Mapping(h, linear, linear, -1), width, height, BytesPerRow(width), colorSpace)))
  }

  // -- NvAccelerant --

  datatype ModeRequest = ModeRequest(
    hDisplay: nat, vDisplay: nat, virtualWidth: nat, virtualHeight: nat,
    hStart: nat, vStart: nat, hTotal: nat, vTotal: nat, space: ColorSpace)

  datatype Accel = Accel(
    kernel: Kernel,
    oldFramebuffer: Bitmap, framebuffer: Bitmap, cursor: Bitmap, newCursor: Bitmap,
    current: Option<ModeRequest>,
    visible: bool, posX: int, posY: int, hotX: int, hotY: int)

  predicate IsSet(b: Bitmap) {
    b.surface != 0
  }

  /** How a mode set ends. Divided: converting the request to NVKMS's form has divided by zero. */
  datatype Outcome = Returned | Raised | Divided

  predicate BadGeometry(m: ModeRequest) {
    m.virtualWidth != m.hDisplay || m.virtualHeight != m.vDisplay || m.hStart != 0 || m.vStart != 0
  }

  predicate Divides(m: ModeRequest) {
    !BadGeometry(m) && m.hTotal * m.vTotal == 0
  }

  /** It ends before anything is allocated: at the geometry checks, in the conversion, or at the
      kernel's validation. */
  predicate Refused(m: ModeRequest, f: Faults) {
    BadGeometry(m) || Divides(m) || f.validate
  }

  function SetDisplayMode(a: Accel, m: ModeRequest, f: Faults): (Accel, Outcome) {
    if Refused(m, f) then (a, if Divides(m) then Divided else Raised)
    else
      var (a', ok) := MakeFramebuffer(a, m, f);
      (a', if ok then Returned else Raised)
  }

  /** From here on the flag of a transition tells whether it returned normally. */
  function MakeFramebuffer(a: Accel, m: ModeRequest, f: Faults): (Accel, bool) {
    var (k1, made) := Construct(a.kernel, m.virtualWidth, m.virtualHeight, m.space, f);
    if made.None? then (a.(kernel := k1), false) else Commit(a, k1, made.value, m, f)
  }

  function Commit(a: Accel, k: Kernel, b: Bitmap, m: ModeRequest, f: Faults): (Accel, bool) {
    if f.commit then (a.(kernel := Destroy(k, b)), false)
    else (Install(a, SelectScanout(k, b.surface), b, m), true)
  }

  /** The end of a mode set that was committed: two moves, and the end of the temporary's life. */
  function Install(a: Accel, k: Kernel, b: Bitmap, m: ModeRequest): Accel {
    var (k3, old', fb') := MoveAssign(k, a.oldFramebuffer, a.framebuffer);
    var (k4, fb'', new') := MoveAssign(k3, fb', b);
    a.(kernel := Destroy(k4, new'), oldFramebuffer := old', framebuffer := fb'', current := Some(m))
  }

  function UpdateCursor(a: Accel, updateImage: bool, updatePos: bool, f: Faults): (Accel, bool) {
    if updateImage && f.image then (a, false)
    else
      var a1 := if updateImage then ShowNewest(a) else a;
      if updatePos then PlaceCursor(a1, f) else (a1, true)
  }

  /** The image call that succeeded, and what follows it. */
  function ShowNewest(a: Accel): Accel {
    var handle := if !a.visible then 0
                  else if IsSet(a.newCursor) then a.newCursor.surface else a.cursor.surface;
    var k1 := SelectCursor(a.kernel, handle);
    if IsSet(a.newCursor) then
      var (k2, c', n') := MoveAssign(k1, a.cursor, a.newCursor);
      a.(kernel := k2, cursor := c', newCursor := n')
    else a.(kernel := k1)
  }

  function PlaceCursor(a: Accel, f: Faults): (Accel, bool) {
    if f.position then (a, false)
    else (a.(kernel := a.kernel.(at := (Signed16(a.posX - a.hotX), Signed16(a.posY - a.hotY)))), true)
  }

  /** A conversion to NvS16. */
  function Signed16(x: int): int {
    (x + 0x8000) % 0x1_0000 - 0x8000
  }

  function ShowCursor(a: Accel, isVisible: bool, f: Faults): (Accel, bool) {
    if a.visible == isVisible then (a, true)
    else UpdateCursor(a.(visible := !a.visible), true, false, f)
  }

  function MoveCursor(a: Accel, x: int, y: int, f: Faults): (Accel, bool) {
    UpdateCursor(a.(posX := x, posY := y), false, true, f)
  }

  function SetCursorBitmap(a: Accel, width: nat, height: nat, hotX: int, hotY: int, space: ColorSpace, f: Faults)
    : (Accel, bool)
  {
    var side := CursorSide(width, height);
    if side.None? then (a, false) else MakeCursor(a, side.value, hotX, hotY, space, f)
  }

  function MakeCursor(a: Accel, side: nat, hotX: int, hotY: int, space: ColorSpace, f: Faults): (Accel, bool) {
    var (k1, made) := Construct(a.kernel, side, side, space, f);
    if made.None? then (a.(kernel := k1), false)
    else TakeCursor(a, k1, made.value, hotX, hotY, f)
  }

  /** The end of SetCursorBitmap: the new image waits, or is shown at once. */
  function TakeCursor(a: Accel, k: Kernel, b: Bitmap, hotX: int, hotY: int, f: Faults): (Accel, bool) {
    var (k2, n', tmp) := MoveAssign(k, a.newCursor, b);
    var a1 := a.(kernel := k2, newCursor := n', hotX := hotX, hotY := hotY);
    var (a2, ok) := if a1.visible then UpdateCursor(a1, true, true, f) else (a1, true);
    (a2.(kernel := Destroy(a2.kernel, tmp)), ok)
  }

  datatype Op =
    | SetMode(mode: ModeRequest)
    | SetCursor(width: nat, height: nat, hotX: int, hotY: int, space: ColorSpace)
    | Show(isVisible: bool)
    | Move(x: int, y: int)

  function Do(a: Accel, op: Op, f: Faults): (Accel, bool) {
    match op
    case SetMode(m) =>
      var (a', outcome) := SetDisplayMode(a, m, f);
      (a', outcome == Returned)
    case SetCursor(w, h, x, y, space) => SetCursorBitmap(a, w, h, x, y, space, f)
    case Show(v) => ShowCursor(a, v, f)
    case Move(x, y) => MoveCursor(a, x, y, f)
  }

  function Run(a: Accel, ops: seq<(Op, Faults)>): Accel
    decreases |ops|
  {
    if ops == [] then a else Run(Do(a, ops[0].0, ops[0].1).0, ops[1..])
  }

  ghost predicate Init(a: Accel) {
    && a.oldFramebuffer == a.framebuffer == a.cursor == a.newCursor == EMPTY
    && a.kernel == Kernel({}, {}, {}, 0, 0, a.kernel.at, a.kernel.next, false)
    && a.kernel.next > 0
    && a.current.None? && !a.visible
  }

  // -- The invariant --

  ghost predicate Clear(b: Bitmap) {
    b.memory == 0 && b.surface == 0 && b.mapping.address == 0 && b.mapping.area == -1
  }

  ghost predicate Whole(b: Bitmap, next: nat) {
    && 0 < b.memory < next && 0 < b.surface < next && b.mapping.address > 0
    && b.mapping.hMemory == b.memory && b.mapping.linear < next && b.mapping.area == -1
  }

  ghost predicate Sound(b: Bitmap, next: nat) {
    Clear(b) || Whole(b, next)
  }

  /** What a bitmap owns. */
  function Owned(b: Bitmap): set<Resource> {
    if IsSet(b) then {Memory(b.memory), Surface(b.surface, b.memory), Mapped(b.memory, b.mapping.linear)} else {}
  }

  /** Handles are unique, and below the next one. */
  ghost predicate Proper(rs: set<Resource>, next: nat) {
    && (forall r :: r in rs ==> r.h < next && (r.Surface? ==> r.s < next))
    && (forall r, r' :: r in rs && r' in rs && r.Surface? && r'.Surface? && (r.s == r'.s || r.h == r'.h) ==> r == r')
    && (forall r, r' :: r in rs && r' in rs && r.Mapped? && r'.Mapped? && r.h == r'.h ==> r == r')
  }

  ghost predicate Healthy(k: Kernel) {
    Proper(k.live, k.next) && k.next > 0 && !k.misuse
  }

  /** One bitmap and everything else that is alive, nothing owned twice. */
  ghost predicate Holds(k: Kernel, b: Bitmap, rest: set<Resource>) {
    && Healthy(k)
    && Sound(b, k.next)
    && k.live == Owned(b) + rest && Owned(b) !! rest
  }

  ghost predicate Unselected(k: Kernel, b: Bitmap) {
    IsSet(b) ==> b.surface != k.scanout && b.surface != k.cursor
  }

  /** The four bitmaps own exactly what is alive, nothing owned twice. */
  ghost predicate Conserved(a: Accel) {
    && Healthy(a.kernel)
    && Sound(a.oldFramebuffer, a.kernel.next) && Sound(a.framebuffer, a.kernel.next)
    && Sound(a.cursor, a.kernel.next) && Sound(a.newCursor, a.kernel.next)
    && a.kernel.live == Owned(a.oldFramebuffer) + Owned(a.framebuffer) + Owned(a.cursor) + Owned(a.newCursor)
    && Owned(a.oldFramebuffer) !! Owned(a.framebuffer) !! Owned(a.cursor) !! Owned(a.newCursor)
  }

  ghost predicate Inv(a: Accel) {
    && Conserved(a)
    && (a.kernel.scanout == 0 || a.kernel.scanout == a.framebuffer.surface)
    && (a.kernel.cursor == 0 || a.kernel.cursor == a.cursor.surface)
    && (IsSet(a.framebuffer) <==> a.current.Some?)
    && (IsSet(a.framebuffer) ==>
          && a.kernel.scanout == a.framebuffer.surface
          && a.framebuffer.width == a.current.value.hDisplay && a.framebuffer.height == a.current.value.vDisplay)
  }

  /** Nothing wrong goes unrecorded: a release of what is not there, a release before what depends on
      it, an unregistration of a selected surface, a selection of one that is not registered. */
  lemma MisuseIsRecorded(k: Kernel, m: Mapping, s: nat, h: nat)
    ensures k.misuse || Mapped(m.hMemory, m.linear) !in k.live ==> Unmap(k, m).misuse
    ensures k.misuse || s == k.scanout || s == k.cursor ==> Unregister(k, s).misuse
    ensures (forall r :: r in k.live && r.Surface? ==> r.s != s)
        ==> Unregister(k, s).misuse && SelectScanout(k, s).misuse
    ensures (forall r :: r in k.live && r.Surface? ==> r.s != s) && s != 0 ==> SelectCursor(k, s).misuse
    ensures (exists r, t :: r in k.live && t in k.live && r.Surface? && r.s == s && t.Mapped? && t.h == r.h)
        ==> Unregister(k, s).misuse
    ensures k.misuse || Memory(h) !in k.live || (exists r :: r in k.live && !r.Memory? && r.h == h)
        ==> FreeMemory(k, h).misuse
    ensures k.misuse ==> SelectScanout(k, s).misuse && SelectCursor(k, s).misuse
  {
    if exists r :: r in k.live && !r.Memory? && r.h == h {
      var r :| r in k.live && !r.Memory? && r.h == h;
      assert Uses(r, h);
    }
  }

  // -- One bitmap and the rest --

  /** Releasing a bitmap: everything it owns and nothing else goes, in the order mapping, surface,
      memory. */
  lemma DestroyGivesBack(k: Kernel, b: Bitmap, rest: set<Resource>)
    requires Holds(k, b, rest) && Unselected(k, b)
    ensures var k' := Destroy(k, b);
            Healthy(k') && k' == k.(live := rest, areas := k'.areas)
  {
    if IsSet(b) {
      var k1 := Unmap(k, b.mapping);
      var k2 := Unregister(k1, b.surface);
      assert Surface(b.surface, b.memory) in k1.live;
      assert !k2.misuse;
      assert k2.live == {Memory(b.memory)} + rest;
    }
  }

  /** A move assignment releases what the target owned and passes on what the source owned. */
  lemma MovePassesOn(k: Kernel, dst: Bitmap, src: Bitmap, rest: set<Resource>)
    requires Holds(k, dst, rest) && Unselected(k, dst)
    requires Sound(src, k.next)
    ensures var (k', dst', src') := MoveAssign(k, dst, src);
            && Healthy(k') && k' == k.(live := rest, areas := k'.areas)
            && Owned(dst') == Owned(src) && dst' == src
            && Clear(src') && src' == EMPTY.(mapping := src'.mapping)
  {
    DestroyGivesBack(k, dst, rest);
  }

  predicate Constructs(space: ColorSpace, f: Faults) {
    (space.RGB32? || space.RGBA32?) && !f.alloc && !f.export_ && !f.register && !f.map_ && !f.area
  }

  /** Wherever the constructor fails, everything that is alive is as it was. */
  lemma FailedConstructRestores(k: Kernel, width: nat, height: nat, space: ColorSpace, f: Faults)
    requires Healthy(k) && k.scanout < k.next && k.cursor < k.next
    requires !Constructs(space, f)
    ensures var (k', made) := Construct(k, width, height, space, f);
            made.None? && k' == k.(next := k'.next, stray := k'.stray) && k'.next >= k.next
    ensures var k' := Construct(k, width, height, space, f).0;
            k'.stray == k.stray || ((space.RGB32? || space.RGBA32?) && f.area && !f.map_)
  {
    if (space.RGB32? || space.RGBA32?) && !f.alloc {
      var h := k.next;
      var k1 := k.(live := k.live + {Memory(h)}, next := h + 1);
      if f.export_ || f.register {
        assert FreeMemory(k1, h).live == k.live;
      } else {
        var s := h + 1;
        var k2 := k1.(live := k1.live + {Surface(s, h)}, next := s + 1);
        if f.map_ {
          SurfaceGoesAgain(k2, s, h, k.live);
        } else {
          SurfaceGoesAgain(k2.(stray := k2.stray + {Mapped(h, s + 1)}, next := s + 2), s, h, k.live);
        }
      }
    }
  }

  ghost predicate Shaped(b: Bitmap, width: nat, height: nat, space: ColorSpace) {
    b.width == width && b.height == height && b.bytesPerRow == BytesPerRow(width) && b.colorSpace == space
  }

  /** The constructor adds one complete bitmap with handles nobody had before. */
  lemma ConstructAddsOne(k: Kernel, width: nat, height: nat, space: ColorSpace, f: Faults)
    requires Healthy(k) && Constructs(space, f)
    ensures var (k', made) := Construct(k, width, height, space, f);
            && made.Some? && Healthy(k')
            && k' == k.(live := k.live + Owned(made.value), next := k'.next, areas := k.areas + {k'.next - 1})
            && Owned(made.value) !! k.live
            && k'.next >= k.next && Whole(made.value, k'.next)
            && k.next <= made.value.surface && k.next <= made.value.memory
            && Shaped(made.value, width, height, space)
  {
  }

  /** Undoing a registration that was not mapped yet. */
  lemma SurfaceGoesAgain(k: Kernel, s: nat, h: nat, rest: set<Resource>)
    requires k.live == rest + {Memory(h), Surface(s, h)} && !k.misuse
    requires s != 0 && h != 0 && s != k.scanout && s != k.cursor
    requires forall r :: r in rest ==> r.h < h && (r.Surface? ==> r.s < s)
    ensures DropMemory(DropSurface(k, s), h) == k.(live := rest)
  {
    var k1 := Unregister(k, s);
    assert Surface(s, h) in k.live;
    assert k1.live == rest + {Memory(h)};
    assert FreeMemory(k1, h).live == rest;
  }

  // -- Every operation keeps the invariant --

  lemma SelectionsAreOld(a: Accel)
    requires Inv(a)
    ensures a.kernel.scanout < a.kernel.next && a.kernel.cursor < a.kernel.next
  {
  }

  lemma SameHoldings(a: Accel, k: Kernel)
    requires Inv(a) && Healthy(k) && k.next >= a.kernel.next && k.live == a.kernel.live
    requires k.scanout == a.kernel.scanout && k.cursor == a.kernel.cursor
    ensures Inv(a.(kernel := k))
  {
  }

  /** One more bitmap, made just now, beside the four. */
  ghost predicate WithNew(a: Accel, k: Kernel, b: Bitmap) {
    && Inv(a) && Healthy(k) && k.next >= a.kernel.next
    && Whole(b, k.next)
    && a.kernel.next <= b.surface
    && k.live == a.kernel.live + Owned(b) && Owned(b) !! a.kernel.live
    && k.cursor == a.kernel.cursor
  }

  /** The bitmap shown before becomes the old one; the one before that is released. */
  lemma RetireFramebuffer(a: Accel, k: Kernel, b: Bitmap)
    requires WithNew(a, k, b) && k.scanout == b.surface
    ensures var (k', old', fb') := MoveAssign(k, a.oldFramebuffer, a.framebuffer);
            && Healthy(k') && old' == a.framebuffer && Clear(fb')
            && k' == k.(live := Owned(a.framebuffer) + Owned(a.cursor) + Owned(a.newCursor) + Owned(b),
                        areas := k'.areas)
  {
    var others := Owned(a.framebuffer) + Owned(a.cursor) + Owned(a.newCursor) + Owned(b);
    assert k.live == Owned(a.oldFramebuffer) + others;
    MovePassesOn(k, a.oldFramebuffer, a.framebuffer, others);
  }

  /** The end of a successful mode set: the new bitmap takes the place of the retired one. */
  lemma CommitKeepsInv(a: Accel, k: Kernel, b: Bitmap, m: ModeRequest)
    requires WithNew(a, k, b) && k.scanout == b.surface
    requires b.width == m.hDisplay && b.height == m.vDisplay
    ensures var (k3, old', fb') := MoveAssign(k, a.oldFramebuffer, a.framebuffer);
            var (k4, fb'', tmp) := MoveAssign(k3, fb', b);
            var a' := a.(kernel := k4, oldFramebuffer := old', framebuffer := fb'', current := Some(m));
            Inv(a') && Clear(tmp) && old' == a.framebuffer && fb'' == b
  {
    RetireFramebuffer(a, k, b);
    var (k3, old', fb') := MoveAssign(k, a.oldFramebuffer, a.framebuffer);
    assert Owned(fb') == {};
    MovePassesOn(k3, fb', b, k3.live);
    InstalledInv(a, MoveAssign(k3, fb', b).0, b, m);
  }

  lemma InstalledInv(a: Accel, k: Kernel, b: Bitmap, m: ModeRequest)
    requires Inv(a) && Healthy(k) && k.next >= a.kernel.next
    requires Whole(b, k.next) && Owned(b) !! a.kernel.live
    requires k.scanout == b.surface && k.cursor == a.kernel.cursor
    requires k.live == Owned(a.framebuffer) + Owned(a.cursor) + Owned(a.newCursor) + Owned(b)
    requires b.width == m.hDisplay && b.height == m.vDisplay
    ensures Inv(a.(kernel := k, oldFramebuffer := a.framebuffer, framebuffer := b, current := Some(m)))
  {
  }

  lemma InstallKeepsInv(a: Accel, k: Kernel, b: Bitmap, m: ModeRequest)
    requires WithNew(a, k, b) && k.scanout == b.surface
    requires b.width == m.hDisplay && b.height == m.vDisplay
    ensures var a' := Install(a, k, b, m);
            Inv(a') && a'.kernel.next == k.next && a'.oldFramebuffer == a.framebuffer && a'.framebuffer == b
  {
    CommitKeepsInv(a, k, b, m);
  }

  /** The allocating constructor beside the four bitmaps. */
  lemma ConstructOutcome(a: Accel, width: nat, height: nat, space: ColorSpace, f: Faults)
    requires Inv(a)
    ensures var (k', made) := Construct(a.kernel, width, height, space, f);
            && k'.next >= a.kernel.next
            && (made.Some? <==> Constructs(space, f))
            && (made.None? ==> Inv(a.(kernel := k')))
            && (made.Some? ==>
                  && WithNew(a, k', made.value) && k'.scanout == a.kernel.scanout
                  && a.kernel.next <= made.value.memory
                  && Shaped(made.value, width, height, space))
  {
    SelectionsAreOld(a);
    if Constructs(space, f) {
      ConstructAddsOne(a.kernel, width, height, space, f);
    } else {
      FailedConstructRestores(a.kernel, width, height, space, f);
      SameHoldings(a, Construct(a.kernel, width, height, space, f).0);
    }
  }

  /** A bitmap that could not be committed goes again. */
  lemma UncommittedGoes(a: Accel, k: Kernel, b: Bitmap)
    requires WithNew(a, k, b) && k.scanout == a.kernel.scanout
    ensures Inv(a.(kernel := Destroy(k, b))) && Destroy(k, b).next == k.next
  {
    SelectionsAreOld(a);
    DestroyGivesBack(k, b, a.kernel.live);
    SameHoldings(a, Destroy(k, b));
  }

  lemma SelectNew(a: Accel, k: Kernel, b: Bitmap)
    requires WithNew(a, k, b)
    ensures WithNew(a, SelectScanout(k, b.surface), b)
  {
    assert Surface(b.surface, b.memory) in k.live;
  }

  /** The rest of a mode set, once the new framebuffer is complete. */
  lemma CommitOutcome(a: Accel, k: Kernel, b: Bitmap, m: ModeRequest, f: Faults)
    requires WithNew(a, k, b) && k.scanout == a.kernel.scanout
    requires b.width == m.hDisplay && b.height == m.vDisplay
    ensures var (a', ok) := Commit(a, k, b, m, f);
            && Inv(a') && a'.kernel.next == k.next && (ok <==> !f.commit)
            && (ok ==> a'.oldFramebuffer == a.framebuffer && a'.framebuffer == b)
            && (!ok ==> a' == a.(kernel := a'.kernel))
  {
    if f.commit {
      UncommittedGoes(a, k, b);
    } else {
      SelectNew(a, k, b);
      InstallKeepsInv(a, SelectScanout(k, b.surface), b, m);
    }
  }

  /** A mode set divides by zero exactly when the geometry is accepted and one of the totals is zero,
      whatever the kernel would say; nothing has changed then. */
  lemma ModeSetDividesIff(a: Accel, m: ModeRequest, f: Faults)
    ensures SetDisplayMode(a, m, f).1 == Divided <==>
              && m.virtualWidth == m.hDisplay && m.virtualHeight == m.vDisplay
              && m.hStart == 0 && m.vStart == 0
              && (m.hTotal == 0 || m.vTotal == 0)
    ensures SetDisplayMode(a, m, f).1 == Divided ==> SetDisplayMode(a, m, f).0 == a
  {
    if m.hTotal != 0 && m.vTotal != 0 {
      assert m.hTotal * m.vTotal >= m.vTotal;
    }
  }

  /** The input that shows it: a plain mode whose totals were left at zero. */
  lemma ModeWithoutTotalsDivides(a: Accel, f: Faults)
    ensures SetDisplayMode(a, ModeRequest(1024, 768, 1024, 768, 0, 0, 0, 0, RGB32), f).1 == Divided
  {
    ModeSetDividesIff(a, ModeRequest(1024, 768, 1024, 768, 0, 0, 0, 0, RGB32), f);
  }

  lemma SetDisplayModeKeepsInv(a: Accel, m: ModeRequest, f: Faults)
    requires Inv(a)
    ensures Inv(SetDisplayMode(a, m, f).0)
  {
    if !Refused(m, f) {
      ConstructOutcome(a, m.virtualWidth, m.virtualHeight, m.space, f);
      var (k1, made) := Construct(a.kernel, m.virtualWidth, m.virtualHeight, m.space, f);
      if made.Some? {
        CommitOutcome(a, k1, made.value, m, f);
      }
    }
  }

  lemma UpdateCursorKeepsInv(a: Accel, updateImage: bool, updatePos: bool, f: Faults)
    requires Inv(a)
    ensures Inv(UpdateCursor(a, updateImage, updatePos, f).0)
  {
    if updateImage {
      ShowNewestKeepsInv(a);
    }
    PlaceCursorKeepsInv(if updateImage then ShowNewest(a) else a, f);
  }

  lemma PlaceCursorKeepsInv(a: Accel, f: Faults)
    requires Inv(a)
    ensures Inv(PlaceCursor(a, f).0)
  {
  }

  lemma ShowNewestKeepsInv(a: Accel)
    requires Inv(a)
    ensures Inv(ShowNewest(a))
  {
    var handle := if !a.visible then 0
                  else if IsSet(a.newCursor) then a.newCursor.surface else a.cursor.surface;
    SelectKnown(a, handle);
    if IsSet(a.newCursor) {
      PendingCursorMoves(a, SelectCursor(a.kernel, handle));
    }
  }

  /** Selecting no cursor, or that of the pending or the present image. */
  lemma SelectKnown(a: Accel, handle: nat)
    requires Inv(a) && handle in {0, a.newCursor.surface, a.cursor.surface}
    ensures SelectCursor(a.kernel, handle) == a.kernel.(cursor := handle)
  {
    if handle != 0 {
      var b := if handle == a.newCursor.surface then a.newCursor else a.cursor;
      assert Surface(b.surface, b.memory) in a.kernel.live;
    }
  }

  /** The pending image becomes the cursor. */
  lemma PendingCursorMoves(a: Accel, k: Kernel)
    requires Inv(a) && IsSet(a.newCursor) && k == a.kernel.(cursor := k.cursor)
    requires k.cursor == 0 || k.cursor == a.newCursor.surface
    ensures var (k', c', n') := MoveAssign(k, a.cursor, a.newCursor);
            Inv(a.(kernel := k', cursor := c', newCursor := n'))
  {
    DifferentSurfaces(a, a.cursor, a.newCursor);
    var rest := Owned(a.oldFramebuffer) + Owned(a.framebuffer) + Owned(a.newCursor);
    assert k.live == Owned(a.cursor) + rest;
    MovePassesOn(k, a.cursor, a.newCursor, rest);
    var (k', c', n') := MoveAssign(k, a.cursor, a.newCursor);
    PromotedInv(a, k', n');
  }

  lemma PromotedInv(a: Accel, k: Kernel, n: Bitmap)
    requires Inv(a) && IsSet(a.newCursor) && Clear(n) && Healthy(k) && k.next == a.kernel.next
    requires k.scanout == a.kernel.scanout && (k.cursor == 0 || k.cursor == a.newCursor.surface)
    requires k.live == Owned(a.oldFramebuffer) + Owned(a.framebuffer) + Owned(a.newCursor)
    ensures Inv(a.(kernel := k, cursor := a.newCursor, newCursor := n))
  {
    var a' := a.(kernel := k, cursor := a.newCursor, newCursor := n);
    assert Owned(n) == {};
    assert Owned(a'.cursor) == Owned(a.newCursor);
  }

  lemma DifferentSurfaces(a: Accel, b: Bitmap, c: Bitmap)
    requires Healthy(a.kernel) && Owned(b) !! Owned(c) && Owned(b) + Owned(c) <= a.kernel.live
    ensures IsSet(b) && IsSet(c) ==> b.surface != c.surface
  {
    if IsSet(b) && IsSet(c) {
      assert Surface(b.surface, b.memory) in Owned(b);
      assert Surface(c.surface, c.memory) in Owned(c);
    }
  }

  /** The pending cursor image is replaced. */
  lemma NewCursorKeepsInv(a: Accel, k: Kernel, b: Bitmap)
    requires WithNew(a, k, b) && k.scanout == a.kernel.scanout
    ensures var (k', n', tmp) := MoveAssign(k, a.newCursor, b);
            Inv(a.(kernel := k', newCursor := n')) && Clear(tmp) && n' == b
  {
    var others := Owned(a.oldFramebuffer) + Owned(a.framebuffer) + Owned(a.cursor) + Owned(b);
    assert k.live == Owned(a.newCursor) + others;
    MovePassesOn(k, a.newCursor, b, others);
    var (k', n', tmp) := MoveAssign(k, a.newCursor, b);
    ReplacedInv(a, k, k', b);
  }

  lemma ReplacedInv(a: Accel, k: Kernel, k': Kernel, b: Bitmap)
    requires WithNew(a, k, b) && Healthy(k') && k'.next == k.next
    requires k'.scanout == a.kernel.scanout && k'.cursor == a.kernel.cursor
    requires k'.live == Owned(a.oldFramebuffer) + Owned(a.framebuffer) + Owned(a.cursor) + Owned(b)
    ensures Inv(a.(kernel := k', newCursor := b))
  {
  }

  lemma TakeCursorKeepsInv(a: Accel, k: Kernel, b: Bitmap, hotX: int, hotY: int, f: Faults)
    requires WithNew(a, k, b) && k.scanout == a.kernel.scanout
    ensures Inv(TakeCursor(a, k, b, hotX, hotY, f).0)
  {
    NewCursorKeepsInv(a, k, b);
    var (k2, n', tmp) := MoveAssign(k, a.newCursor, b);
    var a1 := a.(kernel := k2, newCursor := n', hotX := hotX, hotY := hotY);
    assert Inv(a1);
    UpdateCursorKeepsInv(a1, true, true, f);
  }

  lemma SetCursorBitmapKeepsInv(a: Accel, width: nat, height: nat, hotX: int, hotY: int, space: ColorSpace, f: Faults)
    requires Inv(a)
    ensures Inv(SetCursorBitmap(a, width, height, hotX, hotY, space, f).0)
  {
    var side := CursorSide(width, height);
    if side.Some? {
      ConstructOutcome(a, side.value, side.value, space, f);
      var (k1, made) := Construct(a.kernel, side.value, side.value, space, f);
      if made.Some? {
        TakeCursorKeepsInv(a, k1, made.value, hotX, hotY, f);
      }
    }
  }

  lemma ShowCursorKeepsInv(a: Accel, isVisible: bool, f: Faults)
    requires Inv(a)
    ensures Inv(ShowCursor(a, isVisible, f).0)
  {
    UpdateCursorKeepsInv(a.(visible := !a.visible), true, false, f);
  }

  lemma MoveCursorKeepsInv(a: Accel, x: int, y: int, f: Faults)
    requires Inv(a)
    ensures Inv(MoveCursor(a, x, y, f).0)
  {
    UpdateCursorKeepsInv(a.(posX := x, posY := y), false, true, f);
  }

  lemma DoKeepsInv(a: Accel, op: Op, f: Faults)
    requires Inv(a)
    ensures Inv(Do(a, op, f).0)
  {
    match op
    case SetMode(m) => SetDisplayModeKeepsInv(a, m, f);
    case SetCursor(w, h, x, y, space) => SetCursorBitmapKeepsInv(a, w, h, x, y, space, f);
    case Show(v) => ShowCursorKeepsInv(a, v, f);
    case Move(x, y) => MoveCursorKeepsInv(a, x, y, f);
  }

  lemma {:induction false} RunKeepsInv(a: Accel, ops: seq<(Op, Faults)>)
    requires Inv(a)
    ensures Inv(Run(a, ops))
    decreases |ops|
  {
    if ops != [] {
      DoKeepsInv(a, ops[0].0, ops[0].1);
      RunKeepsInv(Do(a, ops[0].0, ops[0].1).0, ops[1..]);
    }
  }
}
