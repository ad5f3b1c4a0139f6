/** The mapping context of a device handle: recorded by the RM for one later NV_HAIKU_MAP. */
module MappingContexts {
  import opened Common

  datatype Range = Range(start: nat, size: nat)

  /** nv_alloc_mapping_context_t. owned: pRanges points to a list on the heap. */
  datatype Context = Context(
    valid: bool, alloc: nat, pageIndex: nat, owned: bool, ranges: seq<Range>, prot: nat, caching: nat)

  const ZERO: Context := Context(false, 0, 0, false, [], 0, 0)

  /** An RM device: the control device or a GPU. */
  datatype Device = ControlDevice | GpuDevice(id: nat)

  /** The arguments of nv_add_mapping_context_to_file; found: the descriptor belongs to this
      handle; memory: the allocation of the range list succeeds. */
  datatype Request = Request(
    nv: Device, ranges: seq<Range>, caching: nat, prot: nat, alloc: nat, pageIndex: nat,
    found: bool, memory: bool)

  datatype Status = Ok | InvalidArgument | StateInUse | NoMemory

  /** A handle and the number of its range lists on the heap. */
  datatype Handle = Handle(device: Device, ctx: Context, lists: nat)

  function Fresh(device: Device): Handle {
    Handle(device, ZERO, 0)
  }

  function Add(h: Handle, r: Request): (Handle, Status) {
    if !r.found then (h, InvalidArgument)
    else if h.ctx.valid then (h, StateInUse)
    else if r.nv.ControlDevice? then
      (h.(ctx := ZERO.(alloc := r.alloc, pageIndex := r.pageIndex, prot := r.prot, valid := true,
                       caching := r.caching)), Ok)
    else if h.device != r.nv then (h.(ctx := ZERO), InvalidArgument)
    else if !r.memory then (h.(ctx := ZERO), NoMemory)
    else
      (h.(ctx := ZERO.(owned := true, ranges := r.ranges, prot := r.prot, valid := true, caching := r.caching),
          lists := h.lists + 1), Ok)
  }

  /** What NV_HAIKU_MAP maps, up to the success of the area call itself. */
  datatype Mapping = Refused | CloneOf(alloc: nat, pageIndex: nat) | Physical(ranges: seq<Range>)

  function Map(h: Handle): Mapping {
    if !h.ctx.valid then Refused
    else if h.device.ControlDevice? then CloneOf(h.ctx.alloc, h.ctx.pageIndex)
    else if |h.ctx.ranges| == 0 || |h.ctx.ranges| > UINT32_MAX then Refused
    else Physical(h.ctx.ranges)
  }

  /** The destructor's part. */
  function Close(h: Handle): Handle {
    if h.ctx.valid && h.ctx.owned && h.lists > 0 then h.(lists := h.lists - 1) else h
  }

  function Run(h: Handle, requests: seq<Request>): Handle
    decreases |requests|
  {
    if requests == [] then h else Run(Add(h, requests[0]).0, requests[1..])
  }

  // -- Over whole runs --

  /** Once valid, the context never changes. */
  lemma {:induction false} WriteOnce(h: Handle, requests: seq<Request>)
    requires h.ctx.valid
    ensures Run(h, requests) == h
    decreases |requests|
  {
    if requests != [] {
      WriteOnce(h, requests[1..]);
    }
  }

  /** The first request that a handle of this device accepts. */
  predicate Accepts(device: Device, r: Request) {
    r.found && (r.nv.ControlDevice? || (r.nv == device && r.memory))
  }

  ghost predicate FirstAccepted(device: Device, requests: seq<Request>, n: nat) {
    n < |requests| && Accepts(device, requests[n]) && forall i :: 0 <= i < n ==> !Accepts(device, requests[i])
  }

  /** The context an accepted request leaves. */
  function Recorded(r: Request): Context {
    if r.nv.ControlDevice? then Context(true, r.alloc, r.pageIndex, false, [], r.prot, r.caching)
    else Context(true, 0, 0, true, r.ranges, r.prot, r.caching)
  }

  /** Whatever requests come in, the context is that of the first accepted one, or not valid. */
  lemma {:induction false} FirstAcceptedDecides(h: Handle, requests: seq<Request>)
    requires !h.ctx.valid
    ensures Run(h, requests).device == h.device
    ensures Run(h, requests).ctx.valid <==> exists i :: 0 <= i < |requests| && Accepts(h.device, requests[i])
    ensures forall n: nat :: FirstAccepted(h.device, requests, n) ==>
              && Run(h, requests).ctx == Recorded(requests[n])
              && Run(h, requests).lists == h.lists + (if requests[n].nv.ControlDevice? then 0 else 1)
    ensures !Run(h, requests).ctx.valid ==> Run(h, requests).lists == h.lists
    decreases |requests|
  {
    if requests != [] {
      var (h1, status) := Add(h, requests[0]);
      if Accepts(h.device, requests[0]) {
        WriteOnce(h1, requests[1..]);
        assert forall n: nat :: FirstAccepted(h.device, requests, n) ==> n == 0;
      } else {
        FirstAcceptedDecides(h1, requests[1..]);
        forall n: nat | FirstAccepted(h.device, requests, n)
          ensures Run(h, requests).ctx == Recorded(requests[n])
          ensures Run(h, requests).lists == h.lists + (if requests[n].nv.ControlDevice? then 0 else 1)
        {
          assert FirstAccepted(h.device, requests[1..], n - 1);
        }
        assert forall i :: 1 <= i < |requests| ==> requests[i] == requests[1..][i - 1];
      }
    }
  }

  /** The answer to a request: which of them is accepted, and why the others are not. */
  lemma StatusIff(h: Handle, r: Request)
    ensures var (h', status) := Add(h, r);
            && (status == Ok <==> !h.ctx.valid && Accepts(h.device, r))
            && (status == StateInUse <==> r.found && h.ctx.valid)
            && (status == InvalidArgument <==> !r.found || (!h.ctx.valid && r.nv.GpuDevice? && r.nv != h.device))
            && (status == NoMemory <==> r.found && !h.ctx.valid && r.nv.GpuDevice? && r.nv == h.device && !r.memory)
            && (status == Ok ==> h'.ctx == Recorded(r))
            && (status != Ok ==> h'.ctx.valid == h.ctx.valid && h'.lists == h.lists && (h.ctx.valid ==> h' == h))
  {
  }

  lemma {:induction false} SomeFirst(device: Device, requests: seq<Request>) returns (n: nat)
    requires exists i :: 0 <= i < |requests| && Accepts(device, requests[i])
    ensures FirstAccepted(device, requests, n)
  {
    n := 0;
    while !Accepts(device, requests[n])
      invariant n < |requests|
      invariant forall i :: 0 <= i < n ==> !Accepts(device, requests[i])
      invariant exists i :: n <= i < |requests| && Accepts(device, requests[i])
      decreases |requests| - n
    {
      n := n + 1;
    }
  }

  /** NV_HAIKU_MAP on a control handle goes ahead exactly when some request was accepted, and then
      clones the allocation and page that the first accepted one named for the control device. */
  lemma ControlMapIff(requests: seq<Request>, alloc: nat, pageIndex: nat)
    ensures Map(Run(Fresh(ControlDevice), requests)) == CloneOf(alloc, pageIndex) <==>
              exists n: nat :: FirstAccepted(ControlDevice, requests, n) && requests[n].nv.ControlDevice?
                && requests[n].alloc == alloc && requests[n].pageIndex == pageIndex
    ensures Map(Run(Fresh(ControlDevice), requests)) == Refused <==>
              forall i :: 0 <= i < |requests| ==> !Accepts(ControlDevice, requests[i])
  {
    FirstAcceptedDecides(Fresh(ControlDevice), requests);
    if Run(Fresh(ControlDevice), requests).ctx.valid {
      var n := SomeFirst(ControlDevice, requests);
      assert forall m: nat :: FirstAccepted(ControlDevice, requests, m) ==> m == n;
    }
  }

  /** NV_HAIKU_MAP on a GPU handle succeeds exactly when the first accepted request was one for
      that GPU with a non-empty list of ranges, and then maps that very list. */
  lemma GpuMapIff(id: nat, requests: seq<Request>, rs: seq<Range>)
    ensures Map(Run(Fresh(GpuDevice(id)), requests)) == Physical(rs) <==>
              0 < |rs| <= UINT32_MAX &&
              exists n: nat :: FirstAccepted(GpuDevice(id), requests, n)
                && requests[n].nv == GpuDevice(id) && requests[n].ranges == rs
  {
    var h := Fresh(GpuDevice(id));
    FirstAcceptedDecides(h, requests);
    if Run(h, requests).ctx.valid {
      var n := SomeFirst(GpuDevice(id), requests);
      assert forall m: nat :: FirstAccepted(GpuDevice(id), requests, m) ==> m == n;
    }
  }

  /** Zeroing the context never drops a range list: after any run the destructor leaves none on
      the heap. */
  lemma NoListLost(device: Device, requests: seq<Request>)
    ensures Close(Run(Fresh(device), requests)).lists == 0
  {
    FirstAcceptedDecides(Fresh(device), requests);
    if Run(Fresh(device), requests).ctx.valid {
      var n := SomeFirst(device, requests);
    }
  }

  // -- The handle object --

  lemma {:induction false} RunOneMore(h: Handle, requests: seq<Request>, r: Request)
    ensures Run(h, requests + [r]) == Add(Run(h, requests), r).0
    decreases |requests|
  {
    if requests == [] {
      assert Run(h, [r]) == Run(Add(h, r).0, []);
    } else {
      assert (requests + [r])[1..] == requests[1..] + [r];
      RunOneMore(Add(h, requests[0]).0, requests[1..], r);
    }
  }

  class NvHaikuBaseDeviceHandle {
    const device: Device
    var ctx: Context
    ghost var lists: nat
    ghost var requests: seq<Request>   // all that were made so far

    ghost function View(): Handle
      reads this
    {
      Handle(device, ctx, lists)
    }

    ghost predicate Valid()
      reads this
    {
      View() == Run(Fresh(device), requests)
    }

    constructor (device: Device)
      ensures Valid() && this.device == device && requests == []
    {
      this.device := device;
      ctx := ZERO;
      lists := 0;
      requests := [];
    }

    /** nv_add_mapping_context_to_file, on the handle the descriptor leads to. */
    method AddMappingContext(r: Request) returns (status: Status)
      requires Valid()
      modifies this
      ensures Valid() && requests == old(requests) + [r]
      ensures (View(), status) == Add(old(View()), r)
    {
      RunOneMore(Fresh(device), requests, r);
      requests := requests + [r];
      if !r.found {
        return InvalidArgument;
      }
      if ctx.valid {
        return StateInUse;
      }
      ctx := ZERO;
      if r.nv.ControlDevice? {
        ctx := ctx.(alloc := r.alloc, pageIndex := r.pageIndex);
      } else {
        if device != r.nv {
          return InvalidArgument;
        }
        if !r.memory {
          return NoMemory;
        }
        lists := lists + 1;
        ctx := ctx.(owned := true, ranges := r.ranges);
      }
      ctx := ctx.(prot := r.prot, valid := true, caching := r.caching);
      status := Ok;
    }

    /** The NV_HAIKU_MAP case of Control, after the checks on the caller's buffer: what it maps is
        what the first accepted of all requests made on this handle named. */
    method MapContext() returns (m: Mapping)
      requires Valid()
      ensures device.ControlDevice? ==> forall alloc: nat, pageIndex: nat ::
                m == CloneOf(alloc, pageIndex) <==>
                  exists n: nat :: FirstAccepted(device, requests, n)
                    && requests[n].alloc == alloc && requests[n].pageIndex == pageIndex
      ensures device.GpuDevice? ==> forall rs: seq<Range> ::
                m == Physical(rs) <==>
                  0 < |rs| <= UINT32_MAX &&
                  exists n: nat :: FirstAccepted(device, requests, n)
                    && requests[n].nv == device && requests[n].ranges == rs
      ensures m.CloneOf? ==> device.ControlDevice?
      ensures m.Physical? ==> device.GpuDevice?
    {
      MapAgrees(device, requests);
      if !ctx.valid {
        return Refused;
      }
      if device.ControlDevice? {
        return CloneOf(ctx.alloc, ctx.pageIndex);
      }
      if |ctx.ranges| == 0 || |ctx.ranges| > UINT32_MAX {
        return Refused;
      }
      return Physical(ctx.ranges);
    }
  }

  /** Both cases, for every device. */
  lemma MapAgrees(device: Device, requests: seq<Request>)
    ensures device.ControlDevice? ==> forall alloc: nat, pageIndex: nat ::
              Map(Run(Fresh(device), requests)) == CloneOf(alloc, pageIndex) <==>
                exists n: nat :: FirstAccepted(device, requests, n)
                  && requests[n].alloc == alloc && requests[n].pageIndex == pageIndex
    ensures device.GpuDevice? ==> forall rs: seq<Range> ::
              Map(Run(Fresh(device), requests)) == Physical(rs) <==>
                0 < |rs| <= UINT32_MAX &&
                exists n: nat :: FirstAccepted(device, requests, n)
                  && requests[n].nv == device && requests[n].ranges == rs
    ensures Run(Fresh(device), requests).device == device
  {
    FirstAcceptedDecides(Fresh(device), requests);
    match device
    case ControlDevice =>
      forall alloc: nat, pageIndex: nat {
        ControlMapIff(requests, alloc, pageIndex);
      }
    case GpuDevice(id) =>
      forall rs: seq<Range> {
        GpuMapIff(id, requests, rs);
      }
  }
}
