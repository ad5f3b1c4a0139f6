/** The accelerant's objects as the source has them: bitmaps that move their handles into one
    another, and the accelerant that owns four of them. Every method is proved to do to its
    objects what Ownership says about values. */
module Accelerants {
  import opened Surfaces
  import opened Common
  import opened CursorImages
  import O = Ownership

  /** The kernel behind the ioctls. A call told to fail changes nothing. */
  class NvKernel {
    var k: O.Kernel

    constructor (k: O.Kernel)
      ensures this.k == k
    {
      this.k := k;
    }

    method AllocMemory(fail: bool) returns (h: nat)
      requires k.next > 0
      modifies this
      ensures fail ==> h == 0 && k == old(k)
      ensures !fail ==> h == old(k).next && k == old(k).(live := old(k).live + {O.Memory(h)}, next := h + 1)
    {
      if fail {
        return 0;
      }
      h := k.next;
      k := k.(live := k.live + {O.Memory(h)}, next := h + 1);
    }

    method RegisterSurface(h: nat, fail: bool) returns (s: nat)
      requires k.next > 0
      modifies this
      ensures fail ==> s == 0 && k == old(k)
      ensures !fail ==> s == old(k).next && k == old(k).(live := old(k).live + {O.Surface(s, h)}, next := s + 1)
    {
      if fail {
        return 0;
      }
      s := k.next;
      k := k.(live := k.live + {O.Surface(s, h)}, next := s + 1);
    }

    /** NvRmDevice::MapMemory: the RM mapping, then the Haiku area. When the second call fails the
        first is not undone. */
    method MapMemory(h: nat, failMap: bool, failArea: bool) returns (m: O.Mapping)
      requires k.next > 0
      modifies this
      ensures failMap ==> m.address == 0 && k == old(k)
      ensures !failMap && failArea ==>
                m.address == 0 &&
                k == old(k).(stray := old(k).stray + {O.Mapped(h, old(k).next)}, next := old(k).next + 1)
      ensures !failMap && !failArea ==>
                && m == O.Mapping(h, old(k).next, old(k).next, old(k).next + 1)
                && k == old(k).(live := old(k).live + {O.Mapped(h, old(k).next)},
                                areas := old(k).areas + {old(k).next + 1}, next := old(k).next + 2)
    {
      m := O.Mapping(0, 0, 0, -1);
      if failMap {
        return;
      }
      var linear := k.next;
      if failArea {
        k := k.(stray := k.stray + {O.Mapped(h, linear)}, next := linear + 1);
        return;
      }
      k := k.(live := k.live + {O.Mapped(h, linear)}, areas := k.areas + {linear + 1}, next := linear + 2);
      m := O.Mapping(h, linear, linear, linear + 1);
    }
  }

  class NvKmsBitmap {
    var memory: nat
    var surface: nat
    var mapping: O.Mapping
    var width: nat
    var height: nat
    var bytesPerRow: nat
    var colorSpace: O.ColorSpace

    function View(): O.Bitmap
      reads this
    {
      O.Bitmap(memory, surface, mapping, width, height, bytesPerRow, colorSpace)
    }

    constructor ()
      ensures View() == O.EMPTY
    {
      memory, surface, mapping := 0, 0, O.Mapping(0, 0, 0, -1);
      width, height, bytesPerRow, colorSpace := 0, 0, 0, O.NoColorSpace;
    }

    // -- The members' own move assignments --

    method MoveMapping(other: NvKmsBitmap, kernel: NvKernel)
      requires this != other
      modifies this`mapping, other`mapping, kernel
      ensures kernel.k == O.DropMapping(old(kernel.k), old(mapping))
      ensures mapping == old(other.mapping).(area := old(mapping.area))
      ensures other.mapping == old(other.mapping).(address := 0)
    {
      DeleteMapping(kernel);
      mapping := other.mapping.(area := mapping.area);
      other.mapping := other.mapping.(address := 0);
    }

    method MoveSurface(other: NvKmsBitmap, kernel: NvKernel)
      requires this != other
      modifies this`surface, other`surface, kernel
      ensures kernel.k == O.DropSurface(old(kernel.k), old(surface))
      ensures surface == old(other.surface) && other.surface == 0
    {
      DeleteSurface(kernel);
      surface := other.surface;
      other.surface := 0;
    }

    method MoveMemory(other: NvKmsBitmap, kernel: NvKernel)
      requires this != other
      modifies this`memory, other`memory, kernel
      ensures kernel.k == O.DropMemory(old(kernel.k), old(memory))
      ensures memory == old(other.memory) && other.memory == 0
    {
      DeleteMemory(kernel);
      memory := other.memory;
      other.memory := 0;
    }

    method DeleteMapping(kernel: NvKernel)
      modifies kernel
      ensures kernel.k == O.DropMapping(old(kernel.k), mapping)
    {
      if mapping.address != 0 {
        kernel.k := O.Unmap(kernel.k, mapping);
      }
    }

    method DeleteSurface(kernel: NvKernel)
      modifies kernel
      ensures kernel.k == O.DropSurface(old(kernel.k), surface)
    {
      if surface != 0 {
        kernel.k := O.Unregister(kernel.k, surface);
      }
    }

    method DeleteMemory(kernel: NvKernel)
      modifies kernel
      ensures kernel.k == O.DropMemory(old(kernel.k), memory)
    {
      if memory != 0 {
        kernel.k := O.FreeMemory(kernel.k, memory);
      }
    }

    // -- The bitmap --

    method MoveAssign(other: NvKmsBitmap, kernel: NvKernel)
      requires this != other
      modifies this, other, kernel
      ensures (kernel.k, View(), other.View()) == O.MoveAssign(old(kernel.k), old(View()), old(other.View()))
    {
      MoveMapping(other, kernel);
      MoveSurface(other, kernel);
      MoveMemory(other, kernel);

      width := other.width;
      height := other.height;
      bytesPerRow := other.bytesPerRow;
      colorSpace := other.colorSpace;

      other.width := 0;
      other.height := 0;
      other.bytesPerRow := 0;
      other.colorSpace := O.NoColorSpace;
    }

    /** The destructor. */
    method Destroy(kernel: NvKernel)
      modifies kernel
      ensures kernel.k == O.Destroy(old(kernel.k), View())
    {
      DeleteMapping(kernel);
      DeleteSurface(kernel);
      DeleteMemory(kernel);
    }

    /** The body of the allocating constructor, on default-constructed members; false where the
        source throws, after which the members are destroyed. */
    method Construct(kernel: NvKernel, width: nat, height: nat, colorSpace: O.ColorSpace, f: O.Faults)
      returns (ok: bool)
      requires View() == O.EMPTY && kernel.k.next > 0
      modifies this, kernel
      ensures var (k', made) := O.Construct(old(kernel.k), width, height, colorSpace, f);
              && kernel.k == k'
              && (ok <==> made.Some?)
              && (ok ==> View() == made.value)
    {
      this.width := width;
      this.height := height;
      this.bytesPerRow := BytesPerRow(width);
      this.colorSpace := colorSpace;
      ok := Acquire(kernel, f);
      if !ok {
        Destroy(kernel);
      }
    }

    /** The calls of the constructor, one after the other; what an earlier one acquired stays in the
        members. */
    method Acquire(kernel: NvKernel, f: O.Faults) returns (ok: bool)
      requires memory == 0 && surface == 0 && mapping == O.Mapping(0, 0, 0, -1) && kernel.k.next > 0
      requires bytesPerRow == BytesPerRow(width)
      modifies this`memory, this`surface, this`mapping, kernel
      ensures var (k', made) := O.Construct(old(kernel.k), width, height, colorSpace, f);
              Acquired(kernel.k, k', made, ok)
    {
      if colorSpace != O.RGB32 && colorSpace != O.RGBA32 {
        return false;
      }
      memory := kernel.AllocMemory(f.alloc);
      if memory == 0 {
        return false;
      }
      ok := AcquireSurface(kernel, f);
    }

    /** What the stages promise: all of the bitmap, or as much as its destructor takes back. */
    ghost predicate Acquired(k: O.Kernel, k': O.Kernel, made: Option<O.Bitmap>, ok: bool)
      reads this
    {
      && (ok <==> made.Some?)
      && (ok ==> k == k' && View() == made.value)
      && (!ok ==> O.Destroy(k, View()) == k')
    }

    method AcquireSurface(kernel: NvKernel, f: O.Faults) returns (ok: bool)
      requires memory != 0 && surface == 0 && mapping == O.Mapping(0, 0, 0, -1) && kernel.k.next > 0
      requires bytesPerRow == BytesPerRow(width)
      modifies this`surface, this`mapping, kernel
      ensures var (k', made) := O.ConstructSurface(old(kernel.k), memory, width, height, colorSpace, f);
              Acquired(kernel.k, k', made, ok)
    {
      if f.export_ {
        return false;
      }
      surface := kernel.RegisterSurface(memory, f.register);
      if surface == 0 {
        return false;
      }
      ok := AcquireMapping(kernel, f);
    }

    method AcquireMapping(kernel: NvKernel, f: O.Faults) returns (ok: bool)
      requires memory != 0 && surface != 0 && mapping == O.Mapping(0, 0, 0, -1) && kernel.k.next > 0
      requires bytesPerRow == BytesPerRow(width)
      modifies this`mapping, kernel
      ensures var (k', made) := O.ConstructMapping(old(kernel.k), memory, surface, width, height, colorSpace, f);
              Acquired(kernel.k, k', made, ok)
    {
      var m := kernel.MapMemory(memory, f.map_, f.area);
      if m.address == 0 {
        return false;
      }
      mapping := m.(area := mapping.area);
      return true;
    }
  }

  class NvAccelerant {
    const kernel: NvKernel
    const oldFramebuffer: NvKmsBitmap
    const framebuffer: NvKmsBitmap
    const cursor: NvKmsBitmap
    const newCursor: NvKmsBitmap
    var current: Option<O.ModeRequest>
    var visible: bool
    var posX: int
    var posY: int
    var hotX: int
    var hotY: int

    ghost predicate Valid()
      reads kernel
    {
      && kernel.k.next > 0
      && oldFramebuffer != framebuffer && oldFramebuffer != cursor && oldFramebuffer != newCursor
      && framebuffer != cursor && framebuffer != newCursor && cursor != newCursor
    }

    function View(): O.Accel
      reads this, kernel, oldFramebuffer, framebuffer, cursor, newCursor
    {
      O.Accel(kernel.k, oldFramebuffer.View(), framebuffer.View(), cursor.View(), newCursor.View(),
              current, visible, posX, posY, hotX, hotY)
    }

    constructor (kernel: NvKernel)
      requires kernel.k.next > 0
      ensures Valid() && this.kernel == kernel
      ensures View().oldFramebuffer == View().framebuffer == View().cursor == View().newCursor == O.EMPTY
      ensures current.None? && !visible
      ensures kernel.k == O.Kernel({}, {}, {}, 0, 0, kernel.k.at, kernel.k.next, false) ==> O.Init(View())
    {
      this.kernel := kernel;
      var a := new NvKmsBitmap();
      var b := new NvKmsBitmap();
      var c := new NvKmsBitmap();
      var d := new NvKmsBitmap();
      oldFramebuffer, framebuffer, cursor, newCursor := a, b, c, d;
      current, visible := None, false;
      posX, posY, hotX, hotY := 0, 0, 0, 0;
    }

    method SetDisplayMode(m: O.ModeRequest, f: O.Faults) returns (outcome: O.Outcome)
      requires Valid()
      modifies this, kernel, oldFramebuffer, framebuffer
      ensures Valid()
      ensures (View(), outcome) == O.SetDisplayMode(old(View()), m, f)
      ensures O.Inv(old(View())) ==> O.Inv(View())
    {
      ghost var before := View();
      if O.Inv(before) {
        O.SetDisplayModeKeepsInv(before, m, f);
      }
      if m.virtualWidth != m.hDisplay || m.virtualHeight != m.vDisplay || m.hStart != 0 || m.vStart != 0 {
        return O.Raised;
      }
      if m.hTotal * m.vTotal == 0 {
        return O.Divided;
      }
      if f.validate {
        return O.Raised;
      }
      var ok := MakeFramebuffer(m, f);
      outcome := if ok then O.Returned else O.Raised;
    }

    method MakeFramebuffer(m: O.ModeRequest, f: O.Faults) returns (ok: bool)
      requires Valid()
      modifies this, kernel, oldFramebuffer, framebuffer
      ensures Valid()
      ensures (View(), ok) == O.MakeFramebuffer(old(View()), m, f)
    {
      var newFramebuffer := new NvKmsBitmap();
      ok := newFramebuffer.Construct(kernel, m.virtualWidth, m.virtualHeight, m.space, f);
      if !ok {
        return false;
      }
      ok := Commit(newFramebuffer, m, f);
    }

    /** The ioctl that sets the mode, and what follows it. */
    method Commit(newFramebuffer: NvKmsBitmap, m: O.ModeRequest, f: O.Faults) returns (ok: bool)
      requires Valid() && newFramebuffer !in {oldFramebuffer, framebuffer, cursor, newCursor}
      modifies this, kernel, oldFramebuffer, framebuffer, newFramebuffer
      ensures kernel.k.next == old(kernel.k.next)
      ensures (View(), ok) == O.Commit(old(View()), old(kernel.k), old(newFramebuffer.View()), m, f)
    {
      if f.commit {
        newFramebuffer.Destroy(kernel);
        return false;
      }
      kernel.k := O.SelectScanout(kernel.k, newFramebuffer.surface);
      Install(newFramebuffer, m);
      return true;
    }

    /** The last two moves of a mode set, and the end of the temporary's life. */
    method Install(newFramebuffer: NvKmsBitmap, m: O.ModeRequest)
      requires Valid() && newFramebuffer !in {oldFramebuffer, framebuffer, cursor, newCursor}
      modifies this, kernel, oldFramebuffer, framebuffer, newFramebuffer
      ensures kernel.k.next == old(kernel.k.next)
      ensures View() == O.Install(old(View()), old(kernel.k), old(newFramebuffer.View()), m)
    {
      current := Some(m);
      oldFramebuffer.MoveAssign(framebuffer, kernel);
      framebuffer.MoveAssign(newFramebuffer, kernel);
      newFramebuffer.Destroy(kernel);
    }

    method UpdateCursor(updateImage: bool, updatePos: bool, f: O.Faults) returns (ok: bool)
      requires Valid()
      modifies kernel, cursor, newCursor
      ensures Valid()
      ensures (View(), ok) == O.UpdateCursor(old(View()), updateImage, updatePos, f)
    {
      if updateImage {
        if f.image {
          return false;
        }
        ShowNewest();
      }
      if updatePos {
        if f.position {
          return false;
        }
        kernel.k := kernel.k.(at := (O.Signed16(posX - hotX), O.Signed16(posY - hotY)));
      }
      return true;
    }

    method ShowNewest()
      requires Valid()
      modifies kernel, cursor, newCursor
      ensures Valid() && kernel.k.next == old(kernel.k.next)
      ensures View() == O.ShowNewest(old(View()))
    {
      var newIsSet := O.IsSet(newCursor.View());
      var handle := if visible then (if newIsSet then newCursor.surface else cursor.surface) else 0;
      kernel.k := O.SelectCursor(kernel.k, handle);
      if newIsSet {
        cursor.MoveAssign(newCursor, kernel);
      }
    }

    method ShowCursor(isVisible: bool, f: O.Faults) returns (ok: bool)
      requires Valid()
      modifies this, kernel, cursor, newCursor
      ensures Valid()
      ensures (View(), ok) == O.ShowCursor(old(View()), isVisible, f)
      ensures O.Inv(old(View())) ==> O.Inv(View())
    {
      if O.Inv(View()) {
        O.ShowCursorKeepsInv(View(), isVisible, f);
      }
      if visible == isVisible {
        return true;
      }
      visible := !visible;
      ok := UpdateCursor(true, false, f);
    }

    method MoveCursor(x: int, y: int, f: O.Faults) returns (ok: bool)
      requires Valid()
      modifies this, kernel, cursor, newCursor
      ensures Valid()
      ensures (View(), ok) == O.MoveCursor(old(View()), x, y, f)
      ensures O.Inv(old(View())) ==> O.Inv(View())
    {
      if O.Inv(View()) {
        O.MoveCursorKeepsInv(View(), x, y, f);
      }
      posX := x;
      posY := y;
      ok := UpdateCursor(false, true, f);
    }

    /** The pixels are copied as CursorImages says. */
    method SetCursorBitmap(width: nat, height: nat, hotX: int, hotY: int, space: O.ColorSpace, f: O.Faults)
      returns (ok: bool)
      requires Valid()
      modifies this, kernel, cursor, newCursor
      ensures Valid()
      ensures (View(), ok) == O.SetCursorBitmap(old(View()), width, height, hotX, hotY, space, f)
      ensures O.Inv(old(View())) ==> O.Inv(View())
    {
      if O.Inv(View()) {
        O.SetCursorBitmapKeepsInv(View(), width, height, hotX, hotY, space, f);
      }
      var side := CursorSide(width, height);
      if side.None? {
        return false;
      }
      ok := MakeCursor(side.value, hotX, hotY, space, f);
    }

    method MakeCursor(side: nat, hotX: int, hotY: int, space: O.ColorSpace, f: O.Faults) returns (ok: bool)
      requires Valid()
      modifies this, kernel, cursor, newCursor
      ensures Valid()
      ensures (View(), ok) == O.MakeCursor(old(View()), side, hotX, hotY, space, f)
    {
      var image := new NvKmsBitmap();
      ok := image.Construct(kernel, side, side, space, f);
      if !ok {
        return false;
      }
      ok := TakeCursor(image, hotX, hotY, f);
    }

    /** What follows the copy of the pixels. */
    method TakeCursor(image: NvKmsBitmap, hotX: int, hotY: int, f: O.Faults) returns (ok: bool)
      requires Valid() && image !in {oldFramebuffer, framebuffer, cursor, newCursor}
      modifies this, kernel, cursor, newCursor, image
      ensures kernel.k.next == old(kernel.k.next)
      ensures (View(), ok) == O.TakeCursor(old(View()), old(kernel.k), old(image.View()), hotX, hotY, f)
    {
      SetPending(image, hotX, hotY);
      ok := true;
      if visible {
        ok := UpdateCursor(true, true, f);
      }
      image.Destroy(kernel);
    }

    method SetPending(image: NvKmsBitmap, hotX: int, hotY: int)
      requires Valid() && image !in {oldFramebuffer, framebuffer, cursor, newCursor}
      modifies this, kernel, newCursor, image
      ensures kernel.k.next == old(kernel.k.next)
      ensures var (k', n', tmp) := O.MoveAssign(old(kernel.k), old(newCursor.View()), old(image.View()));
              && image.View() == tmp
              && View() == old(View()).(kernel := k', newCursor := n', hotX := hotX, hotY := hotY)
    {
      newCursor.MoveAssign(image, kernel);
      this.hotX := hotX;
      this.hotY := hotY;
    }
  }
}
