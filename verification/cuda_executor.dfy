/** The CUDA executor: allocator selection, guarded allocation and release,
    the copy dispatch between a CUDA executor and the other executor kinds,
    stream synchronisation, the device count query and the device-id-guarded
    initialisation of the executor's properties and library handles.

    The CUDA runtime is not called: it is the abstract state held by a
    `Runtime` object (the current device with the stack of devices that
    scoped guards saved, the memory of every space, the copies pending on
    every stream, and a log of the runtime calls issued). */
module CudaExecutor {
  import opened Wrappers

  newtype byte = b: int | 0 <= b < 256

  /** A CUDA stream handle; 0 is the default (null) stream. */
  type Stream = nat

  /** Error codes of the CUDA runtime this model distinguishes. */
  const CudaSuccess := 0
  const CudaErrorNoDevice := 100

  /** The number of threads in a warp on every CUDA device. */
  const WarpSize := 32

  /** The allocation mode an executor is created with; `OtherMode` is any
      value of the enumeration outside the three named ones. */
  datatype AllocationMode = Device | UnifiedGlobal | UnifiedHost | OtherMode(raw: int)

  /** `CudaAllocator` (plain device memory) or `CudaUnifiedAllocator`
      (managed memory bound to one device id). */
  datatype Allocator = CudaAllocator | CudaUnifiedAllocator(deviceId: int)

  datatype Error =
    | NotSupported(what: string)
    | CudaError(code: int)
    | AllocationError(deviceId: int, bytes: nat)

  /** Selects the allocator for an allocation mode: plain device memory for
      `Device`, unified memory on the executor's device for both unified
      modes, and NotSupported for anything else. */
  function AllocatorFromMode(deviceId: int, mode: AllocationMode): (r: Result<Allocator, Error>)
    ensures mode == Device <==> r == Ok(CudaAllocator)
    ensures mode == UnifiedGlobal || mode == UnifiedHost <==> r == Ok(CudaUnifiedAllocator(deviceId))
    ensures mode.OtherMode? <==> r.Err?
    ensures r.Err? ==> r.error == NotSupported("allocation_mode")
  {
    match mode
    case Device => Ok(CudaAllocator)
    case UnifiedGlobal => Ok(CudaUnifiedAllocator(deviceId))
    case UnifiedHost => Ok(CudaUnifiedAllocator(deviceId))
    case OtherMode(_) => Err(NotSupported("allocation_mode"))
  }

  /** What `cudaGetDeviceCount` reports: an error code and the count it wrote. */
  datatype DeviceCountReply = DeviceCountReply(status: int, count: nat)

  /** The number of CUDA devices: no device at all is not an error and gives
      0 (whatever count the driver wrote), any other error code raises, and
      success gives the reported count. */
  function GetNumDevices(reply: DeviceCountReply): (r: Result<nat, Error>)
    ensures reply.status == CudaErrorNoDevice ==> r == Ok(0)
    ensures reply.status == CudaSuccess ==> r == Ok(reply.count)
    ensures r.Err? <==> reply.status != CudaSuccess && reply.status != CudaErrorNoDevice
    ensures r.Err? ==> r.error == CudaError(reply.status)
  {
    if reply.status == CudaErrorNoDevice then Ok(0)
    else if reply.status != CudaSuccess then Err(CudaError(reply.status))
    else Ok(reply.count)
  }

  /** The range test that guards the three initialisers: the device count is
      queried first (and may raise), then the id is compared with it. */
  function DeviceInRange(reply: DeviceCountReply, id: int): (r: Result<bool, Error>)
    ensures r.Err? <==> GetNumDevices(reply).Err?
    ensures r.Ok? ==> (r.value <==> 0 <= id < GetNumDevices(reply).value)
  {
    match GetNumDevices(reply)
    case Err(e) => Err(e)
    case Ok(n) => Ok(id < n && id >= 0)
  }

  /** A driver that reports no device puts every id out of range, so no
      initialiser runs and nothing raises. */
  lemma NoDeviceIsNotAnError(count: nat, id: int)
    ensures DeviceInRange(DeviceCountReply(CudaErrorNoDevice, count), id) == Ok(false)
  {
  }

  // ---------------------------------------------------------------------
  // Abstract runtime state

  /** Host memory, or the memory of one CUDA device. */
  datatype Space = Host | OnDevice(id: int)

  datatype Addr = Addr(space: Space, ptr: nat)

  type Memory = map<Addr, seq<byte>>

  /** An asynchronous copy of `bytes` bytes waiting on a stream. */
  datatype PendingCopy = PendingCopy(src: Addr, dst: Addr, bytes: nat)

  datatype CopyKind = HostToDevice | DeviceToHost | Peer

  datatype Library = Cublas | Cusparse

  /** One runtime call, with the device that was current when it was issued. */
  datatype Event =
    | GuardEnter(device: int)
    | GuardExit(restored: int)
    | MemcpyAsync(kind: CopyKind, stream: Stream, current: int, bytes: nat)
    | StreamSynchronize(stream: Stream, current: int)
    | Malloc(current: int, bytes: nat)
    | Free(current: int, ptr: nat)
    | PropertyQuery(current: int, device: int)
    | HandleCreate(lib: Library, stream: Stream, current: int)
    | HandleDestroy(lib: Library, current: int)

  /** A copy that finds both buffers large enough overwrites the first
      `bytes` bytes of the destination with those of the source; otherwise
      the runtime reports an error at the next synchronisation and memory is
      left as it was. */
  function ApplyCopy(m: Memory, c: PendingCopy): (r: Memory)
  {
    if c.src in m && c.dst in m && c.bytes <= |m[c.src]| && c.bytes <= |m[c.dst]|
    then m[c.dst := m[c.src][..c.bytes] + m[c.dst][c.bytes..]]
    else m
  }

  /** The memory after the copies `ops` have run in order. */
  function Drain(m: Memory, ops: seq<PendingCopy>): Memory
  {
    if ops == [] then m else ApplyCopy(Drain(m, ops[..|ops| - 1]), ops[|ops| - 1])
  }

  function PendingOn(pending: map<Stream, seq<PendingCopy>>, s: Stream): seq<PendingCopy>
  {
    if s in pending then pending[s] else []
  }

  /** Running copies never creates or frees a buffer and never changes the
      length of one. */
  lemma {:induction false} DrainKeepsShape(m: Memory, ops: seq<PendingCopy>)
    ensures Drain(m, ops).Keys == m.Keys
    ensures forall a :: a in m ==> |Drain(m, ops)[a]| == |m[a]|
  {
    if ops != [] {
      DrainKeepsShape(m, ops[..|ops| - 1]);
    }
  }

  /** After the copies pending on a stream and then one more copy `c` have
      run, the destination's first `c.bytes` bytes equal the source's, and
      all other buffers hold what the earlier copies left in them. */
  lemma CopyLands(m: Memory, ops: seq<PendingCopy>, c: PendingCopy)
    requires c.src in m && c.dst in m
    requires c.bytes <= |m[c.src]| && c.bytes <= |m[c.dst]|
    ensures Drain(m, ops + [c]).Keys == m.Keys
    ensures forall a :: a in m ==> |Drain(m, ops + [c])[a]| == |m[a]|
    ensures Drain(m, ops + [c])[c.dst][..c.bytes] == Drain(m, ops + [c])[c.src][..c.bytes]
    ensures forall a :: a in m && a != c.dst ==> Drain(m, ops + [c])[a] == Drain(m, ops)[a]
  {
    var ops' := ops + [c];
    assert ops'[..|ops'| - 1] == ops;
    DrainKeepsShape(m, ops);
  }

  /** The abstract CUDA runtime of one process. */
  class Runtime {
    /** What `cudaGetDeviceCount` answers. */
    const deviceCount: DeviceCountReply
    /** What the device attribute queries answer for each device id. */
    const attributes: int -> DeviceAttributes

    /** The device the runtime calls currently address. */
    var current: int
    /** The devices saved by the scoped guards that are still open, innermost last. */
    var saved: seq<int>
    var memory: Memory
    var pending: map<Stream, seq<PendingCopy>>
    /** Every allocated pointer is below this bound. */
    var nextPtr: nat
    var events: seq<Event>

    ghost predicate Valid()
      reads this`memory, this`nextPtr
    {
      forall a :: a in memory ==> a.ptr < nextPtr
    }

    constructor (deviceCount: DeviceCountReply, attributes: int -> DeviceAttributes,
                 current: int, memory: Memory, nextPtr: nat)
      requires forall a :: a in memory ==> a.ptr < nextPtr
      ensures Valid()
      ensures this.deviceCount == deviceCount && this.current == current
      ensures this.memory == memory && this.nextPtr == nextPtr
      ensures saved == [] && pending == map[] && events == []
    {
      this.deviceCount := deviceCount;
      this.attributes := attributes;
      this.current := current;
      this.saved := [];
      this.memory := memory;
      this.pending := map[];
      this.nextPtr := nextPtr;
      this.events := [];
    }

    /** Opening a scoped device guard: saves the current device and makes
        `id` current. */
    method EnterGuard(id: int)
      modifies this`current, this`saved, this`events
      ensures current == id && saved == old(saved) + [old(current)]
      ensures events == old(events) + [GuardEnter(id)]
    {
      saved := saved + [current];
      current := id;
      events := events + [GuardEnter(id)];
    }

    /** Closing the innermost guard: the device it saved becomes current again. */
    method ExitGuard()
      requires saved != []
      modifies this`current, this`saved, this`events
      ensures current == old(saved[|saved| - 1]) && saved == old(saved[..|saved| - 1])
      ensures events == old(events) + [GuardExit(current)]
    {
      current := saved[|saved| - 1];
      saved := saved[..|saved| - 1];
      events := events + [GuardExit(current)];
    }

    /** `cudaMemcpyAsync`/`cudaMemcpyPeerAsync`: queues the copy on the stream. */
    method CopyAsync(kind: CopyKind, s: Stream, c: PendingCopy)
      modifies this`pending, this`events
      ensures pending == old(pending)[s := PendingOn(old(pending), s) + [c]]
      ensures events == old(events) + [MemcpyAsync(kind, s, current, c.bytes)]
    {
      pending := pending[s := PendingOn(pending, s) + [c]];
      events := events + [MemcpyAsync(kind, s, current, c.bytes)];
    }

    /** `cudaStreamSynchronize`: runs every copy pending on the stream, in order. */
    method SyncStream(s: Stream)
      requires Valid()
      modifies this`memory, this`pending, this`events
      ensures Valid()
      ensures memory == Drain(old(memory), PendingOn(old(pending), s))
      ensures pending == old(pending)[s := []]
      ensures events == old(events) + [StreamSynchronize(s, current)]
    {
      DrainKeepsShape(memory, PendingOn(pending, s));
      memory := Drain(memory, PendingOn(pending, s));
      pending := pending[s := []];
      events := events + [StreamSynchronize(s, current)];
    }
  }

  /** Two nested guards for devices `d1` then `d2`, closed in reverse order,
      leave the device that was current before the first one current. */
  method NestedGuards(rt: Runtime, d1: int, d2: int)
    modifies rt`current, rt`saved, rt`events
    ensures rt.current == old(rt.current) && rt.saved == old(rt.saved)
    ensures rt.events == old(rt.events)
      + [GuardEnter(d1), GuardEnter(d2), GuardExit(d1), GuardExit(old(rt.current))]
  {
    rt.EnterGuard(d1);
    rt.EnterGuard(d2);
    assert rt.current == d2;
    rt.ExitGuard();
    assert rt.current == d1;
    rt.ExitGuard();
  }

  // ---------------------------------------------------------------------
  // The executor

  /** The answers of the device attribute and PCI bus queries for one device. */
  datatype DeviceAttributes = DeviceAttributes(
    pciBusId: string, major: int, minor: int, multiProcessorCount: int,
    maxThreadsPerBlock: int, maxBlockDimX: int, maxBlockDimY: int, maxBlockDimZ: int)

  /** What the machine topology knows about a PCI device. */
  datatype PciDevice = PciDevice(closestNuma: int, closestPuIds: seq<int>)

  /** The executor's cached device description. */
  datatype ExecInfo = ExecInfo(
    deviceId: int, pciBusId: string, numaNode: int, closestPuIds: seq<int>,
    major: int, minor: int, numComputingUnits: int, numPuPerCu: int,
    maxWorkgroupSize: int, maxWorkitemSizes: seq<int>, maxSubgroupSize: int)

  /** A vendor library handle together with the device id its deleter captured. */
  datatype Handle = Handle(lib: Library, stream: Stream, deleterDevice: int)

  /** The description a freshly built executor starts from. */
  function InitialInfo(deviceId: int): (i: ExecInfo)
    ensures i.deviceId == deviceId
  {
    ExecInfo(deviceId, "", -1, [], 0, 0, 0, 0, 0, [], 0)
  }

  /** The description after `set_gpu_property` queried device `a`;
      `coresPerSm` is the number of cores per multiprocessor of a compute
      capability. */
  function WithGpuProperties(i: ExecInfo, a: DeviceAttributes, coresPerSm: nat): (r: ExecInfo)
    ensures r.deviceId == i.deviceId && r.pciBusId == i.pciBusId && r.numaNode == i.numaNode
    ensures r.closestPuIds == i.closestPuIds
    ensures r.major == a.major && r.minor == a.minor
    ensures r.numComputingUnits == a.multiProcessorCount
    ensures r.maxWorkgroupSize == a.maxThreadsPerBlock
    ensures r.maxWorkitemSizes == [a.maxBlockDimX, a.maxBlockDimY, a.maxBlockDimZ]
    ensures r.numPuPerCu * WarpSize <= coresPerSm < (r.numPuPerCu + 1) * WarpSize
    ensures r.maxSubgroupSize == WarpSize
  {
    i.(major := a.major, minor := a.minor, numComputingUnits := a.multiProcessorCount,
       maxWorkgroupSize := a.maxThreadsPerBlock,
       maxWorkitemSizes := [a.maxBlockDimX, a.maxBlockDimY, a.maxBlockDimZ],
       numPuPerCu := coresPerSm / WarpSize, maxSubgroupSize := WarpSize)
  }

  /** The two descriptions agree on the device id and on every field that
      `set_gpu_property` fills in. */
  predicate SameDeviceProperties(a: ExecInfo, b: ExecInfo)
  {
    && a.deviceId == b.deviceId && a.major == b.major && a.minor == b.minor
    && a.numComputingUnits == b.numComputingUnits && a.numPuPerCu == b.numPuPerCu
    && a.maxWorkgroupSize == b.maxWorkgroupSize && a.maxWorkitemSizes == b.maxWorkitemSizes
    && a.maxSubgroupSize == b.maxSubgroupSize
  }

  /** The description after `populate_exec_info` read the PCI bus id and
      looked it up in the machine topology. */
  function WithTopology(i: ExecInfo, busId: string, topology: map<string, PciDevice>): (r: ExecInfo)
    ensures r.pciBusId == busId
    ensures SameDeviceProperties(r, i)
    ensures busId in topology ==>
      r.numaNode == topology[busId].closestNuma && r.closestPuIds == topology[busId].closestPuIds
    ensures busId !in topology ==> r.numaNode == i.numaNode && r.closestPuIds == i.closestPuIds
  {
    var i' := i.(pciBusId := busId);
    if busId in topology
    then i'.(numaNode := topology[busId].closestNuma, closestPuIds := topology[busId].closestPuIds)
    else i'
  }

  /** The device an allocator places its memory on while `current` is the
      current device: plain allocations go to the current device, unified
      ones to the device the allocator is bound to. */
  function AllocationDevice(alloc: Allocator, current: int): int
  {
    match alloc
    case CudaAllocator => current
    case CudaUnifiedAllocator(d) => d
  }

  /** The events a handle's deleter issues: it re-enters a guard for the
      device id it captured, destroys the handle and restores `restored`. */
  function DeleterEvents(h: Handle, restored: int): seq<Event>
  {
    [GuardEnter(h.deleterDevice), HandleDestroy(h.lib, h.deleterDevice), GuardExit(restored)]
  }

  function ReplacedEvents(old_: Option<Handle>, restored: int): seq<Event>
  {
    match old_
    case None => []
    case Some(h) => DeleterEvents(h, restored)
  }

  /** Runs a handle's deleter. */
  method DestroyHandle(rt: Runtime, h: Handle)
    modifies rt`current, rt`saved, rt`events
    ensures rt.current == old(rt.current) && rt.saved == old(rt.saved)
    ensures rt.events == old(rt.events) + DeleterEvents(h, old(rt.current))
  {
    rt.EnterGuard(h.deleterDevice);
    rt.events := rt.events + [HandleDestroy(h.lib, rt.current)];
    rt.ExitGuard();
  }

  class CudaExecutor {
    const deviceId: int
    const stream: Stream
    const alloc: Allocator
    var info: ExecInfo
    var cublas: Option<Handle>
    var cusparse: Option<Handle>

    /** The constructor that takes an allocator; the other one is `Create`. */
    constructor (deviceId: int, alloc: Allocator, stream: Stream)
      ensures this.deviceId == deviceId && this.alloc == alloc && this.stream == stream
      ensures info == InitialInfo(deviceId) && cublas == None && cusparse == None
    {
      this.deviceId := deviceId;
      this.alloc := alloc;
      this.stream := stream;
      this.info := InitialInfo(deviceId);
      this.cublas := None;
      this.cusparse := None;
    }

    /** Blocks until the copies queued on the executor's stream have run,
        with the executor's device current meanwhile. */
    method Synchronize(rt: Runtime)
      requires rt.Valid()
      modifies rt`current, rt`saved, rt`events, rt`memory, rt`pending
      ensures rt.Valid()
      ensures rt.current == old(rt.current) && rt.saved == old(rt.saved)
      ensures rt.memory == Drain(old(rt.memory), PendingOn(old(rt.pending), stream))
      ensures rt.pending == old(rt.pending)[stream := []]
      ensures rt.events == old(rt.events)
        + [GuardEnter(deviceId), StreamSynchronize(stream, deviceId), GuardExit(old(rt.current))]
    {
      rt.EnterGuard(deviceId);
      rt.SyncStream(stream);
      rt.ExitGuard();
    }

    /** Queues one copy on the executor's stream under a guard for its
        device and synchronises the executor before the guard closes: the
        body shared by every supported copy of at least one byte. */
    method CopyAndWait(rt: Runtime, kind: CopyKind, c: PendingCopy)
      requires rt.Valid()
      modifies rt`current, rt`saved, rt`events, rt`memory, rt`pending
      ensures rt.Valid()
      ensures rt.current == old(rt.current) && rt.saved == old(rt.saved)
      ensures rt.events == old(rt.events)
        + [GuardEnter(deviceId), MemcpyAsync(kind, stream, deviceId, c.bytes),
           GuardEnter(deviceId), StreamSynchronize(stream, deviceId), GuardExit(deviceId),
           GuardExit(old(rt.current))]
      ensures rt.memory == Drain(old(rt.memory), PendingOn(old(rt.pending), stream) + [c])
      ensures rt.pending == old(rt.pending)[stream := []]
    {
      rt.EnterGuard(deviceId);
      rt.CopyAsync(kind, stream, c);
      assert PendingOn(rt.pending, stream) == PendingOn(old(rt.pending), stream) + [c];
      Synchronize(rt);
      rt.ExitGuard();
    }

    /** Allocates `numBytes` bytes through the owned allocator under a guard
        for the executor's device. `outOfMemory` is the allocator's answer;
        the new buffer's contents are unspecified. */
    method RawAlloc(rt: Runtime, numBytes: nat, outOfMemory: bool) returns (r: Result<nat, Error>)
      requires rt.Valid()
      modifies rt`current, rt`saved, rt`events, rt`memory, rt`nextPtr
      ensures rt.Valid()
      ensures rt.current == old(rt.current) && rt.saved == old(rt.saved)
      ensures rt.events == old(rt.events)
        + [GuardEnter(deviceId), Malloc(deviceId, numBytes), GuardExit(old(rt.current))]
      ensures outOfMemory <==> r.Err?
      ensures r.Err? ==> r.error == AllocationError(deviceId, numBytes) && rt.memory == old(rt.memory)
      ensures r.Ok? ==>
        var a := Addr(OnDevice(AllocationDevice(alloc, deviceId)), r.value);
        && a !in old(rt.memory)
        && rt.memory.Keys == old(rt.memory).Keys + {a}
        && |rt.memory[a]| == numBytes
        && forall b :: b in old(rt.memory) ==> rt.memory[b] == old(rt.memory)[b]
    {
      rt.EnterGuard(deviceId);
      rt.events := rt.events + [Malloc(rt.current, numBytes)];
      if outOfMemory {
        r := Err(AllocationError(rt.current, numBytes));
      } else {
        var a := Addr(OnDevice(AllocationDevice(alloc, rt.current)), rt.nextPtr);
        var zeros: seq<byte> := seq(numBytes, _ => 0);
        assert |zeros| == numBytes;
        var contents: seq<byte> :| |contents| == numBytes;
        rt.memory := rt.memory[a := contents];
        r := Ok(rt.nextPtr);
        rt.nextPtr := rt.nextPtr + 1;
      }
      rt.ExitGuard();
    }

    /** Releases a pointer through the owned allocator under a guard for the
        executor's device; never raises, and a pointer that is not allocated
        leaves memory as it is. */
    method RawFree(rt: Runtime, ptr: nat)
      requires rt.Valid()
      modifies rt`current, rt`saved, rt`events, rt`memory
      ensures rt.Valid()
      ensures rt.current == old(rt.current) && rt.saved == old(rt.saved)
      ensures rt.events == old(rt.events)
        + [GuardEnter(deviceId), Free(deviceId, ptr), GuardExit(old(rt.current))]
      ensures rt.memory == old(rt.memory) - {Addr(OnDevice(AllocationDevice(alloc, deviceId)), ptr)}
    {
      rt.EnterGuard(deviceId);
      rt.events := rt.events + [Free(rt.current, ptr)];
      rt.memory := rt.memory - {Addr(OnDevice(AllocationDevice(alloc, rt.current)), ptr)};
      rt.ExitGuard();
    }

    /** Reads the PCI bus id of the executor's device and its place in the
        machine topology, under a guard; does nothing for an id outside
        [0, number of devices). */
    method PopulateExecInfo(rt: Runtime, topology: map<string, PciDevice>) returns (r: Outcome<Error>)
      modifies this`info, rt`current, rt`saved, rt`events
      ensures rt.current == old(rt.current) && rt.saved == old(rt.saved)
      ensures DeviceInRange(rt.deviceCount, deviceId).Err? ==>
        r == Fail(DeviceInRange(rt.deviceCount, deviceId).error)
      ensures DeviceInRange(rt.deviceCount, deviceId) != Ok(true) ==>
        info == old(info) && rt.events == old(rt.events)
      ensures DeviceInRange(rt.deviceCount, deviceId).Ok? ==> r == Pass
      ensures DeviceInRange(rt.deviceCount, deviceId) == Ok(true) ==>
        && info == WithTopology(old(info), rt.attributes(deviceId).pciBusId, topology)
        && rt.events == old(rt.events)
             + [GuardEnter(deviceId), PropertyQuery(deviceId, deviceId), GuardExit(old(rt.current))]
    {
      var inRange := DeviceInRange(rt.deviceCount, deviceId);
      if inRange.Err? {
        return Fail(inRange.error);
      }
      if inRange.value {
        rt.EnterGuard(deviceId);
        rt.events := rt.events + [PropertyQuery(rt.current, deviceId)];
        info := WithTopology(info, rt.attributes(deviceId).pciBusId, topology);
        rt.ExitGuard();
      }
      r := Pass;
    }

    /** Queries the compute capability, unit counts and work-group limits of
        the executor's device under a guard; does nothing for an id outside
        [0, number of devices). */
    method SetGpuProperty(rt: Runtime, coresPerSm: (int, int) -> nat) returns (r: Outcome<Error>)
      modifies this`info, rt`current, rt`saved, rt`events
      ensures rt.current == old(rt.current) && rt.saved == old(rt.saved)
      ensures DeviceInRange(rt.deviceCount, deviceId).Err? ==>
        r == Fail(DeviceInRange(rt.deviceCount, deviceId).error)
      ensures DeviceInRange(rt.deviceCount, deviceId) != Ok(true) ==>
        info == old(info) && rt.events == old(rt.events)
      ensures DeviceInRange(rt.deviceCount, deviceId).Ok? ==> r == Pass
      ensures DeviceInRange(rt.deviceCount, deviceId) == Ok(true) ==>
        var a := rt.attributes(deviceId);
        && info == WithGpuProperties(old(info), a, coresPerSm(a.major, a.minor))
        && rt.events == old(rt.events)
             + [GuardEnter(deviceId), PropertyQuery(deviceId, deviceId), GuardExit(old(rt.current))]
    {
      var inRange := DeviceInRange(rt.deviceCount, deviceId);
      if inRange.Err? {
        return Fail(inRange.error);
      }
      if inRange.value {
        rt.EnterGuard(deviceId);
        rt.events := rt.events + [PropertyQuery(rt.current, deviceId)];
        var a := rt.attributes(deviceId);
        info := WithGpuProperties(info, a, coresPerSm(a.major, a.minor));
        rt.ExitGuard();
      }
      r := Pass;
    }

    /** Creates the cuBLAS and cuSPARSE handles on the executor's stream
        under a guard; each handle's deleter captures the device id. A handle
        that was already present is released by its own deleter when it is
        replaced. Does nothing for an id outside [0, number of devices). */
    method InitHandles(rt: Runtime) returns (r: Outcome<Error>)
      modifies this`cublas, this`cusparse, rt`current, rt`saved, rt`events
      ensures rt.current == old(rt.current) && rt.saved == old(rt.saved)
      ensures DeviceInRange(rt.deviceCount, deviceId).Err? ==>
        r == Fail(DeviceInRange(rt.deviceCount, deviceId).error)
      ensures DeviceInRange(rt.deviceCount, deviceId) != Ok(true) ==>
        cublas == old(cublas) && cusparse == old(cusparse) && rt.events == old(rt.events)
      ensures DeviceInRange(rt.deviceCount, deviceId).Ok? ==> r == Pass
      ensures DeviceInRange(rt.deviceCount, deviceId) == Ok(true) ==>
        && cublas == Some(Handle(Cublas, stream, deviceId))
        && cusparse == Some(Handle(Cusparse, stream, deviceId))
        && rt.events == old(rt.events)
             + [GuardEnter(deviceId), HandleCreate(Cublas, stream, deviceId)]
             + ReplacedEvents(old(cublas), deviceId)
             + [HandleCreate(Cusparse, stream, deviceId)]
             + ReplacedEvents(old(cusparse), deviceId)
             + [GuardExit(old(rt.current))]
    {
      var inRange := DeviceInRange(rt.deviceCount, deviceId);
      if inRange.Err? {
        return Fail(inRange.error);
      }
      if inRange.value {
        var id := deviceId;
        rt.EnterGuard(id);
        rt.events := rt.events + [HandleCreate(Cublas, stream, rt.current)];
        var previous := cublas;
        cublas := Some(Handle(Cublas, stream, id));
        if previous.Some? {
          DestroyHandle(rt, previous.value);
        }
        rt.events := rt.events + [HandleCreate(Cusparse, stream, rt.current)];
        previous := cusparse;
        cusparse := Some(Handle(Cusparse, stream, id));
        if previous.Some? {
          DestroyHandle(rt, previous.value);
        }
        rt.ExitGuard();
      }
      r := Pass;
    }
  }

  /** `CudaExecutor::create` with an allocation mode: selects the allocator
      (which may raise NotSupported) and builds the executor. */
  method Create(deviceId: int, mode: AllocationMode, stream: Stream) returns (r: Result<CudaExecutor, Error>)
    ensures r.Err? <==> AllocatorFromMode(deviceId, mode).Err?
    ensures r.Err? ==> r.error == NotSupported("allocation_mode")
    ensures r.Ok? ==>
      && fresh(r.value)
      && r.value.deviceId == deviceId && r.value.stream == stream
      && r.value.alloc == AllocatorFromMode(deviceId, mode).value
      && r.value.info == InitialInfo(deviceId)
      && r.value.cublas == None && r.value.cusparse == None
  {
    var alloc := AllocatorFromMode(deviceId, mode);
    if alloc.Err? {
      return Err(alloc.error);
    }
    var e := new CudaExecutor(deviceId, alloc.value, stream);
    r := Ok(e);
  }

  /** Whichever allocator `Create` selected, allocations land on the
      executor's own device. */
  lemma CreatedAllocatorTargetsDevice(deviceId: int, mode: AllocationMode)
    requires AllocatorFromMode(deviceId, mode).Ok?
    ensures AllocationDevice(AllocatorFromMode(deviceId, mode).value, deviceId) == deviceId
  {
  }

  // ---------------------------------------------------------------------
  // Copy dispatch

  /** One side of a copy: the OpenMP (host) executor, a CUDA executor, or a
      HIP or DPC++ executor known by its device id. */
  datatype Endpoint = OmpEnd | CudaEnd(exec: CudaExecutor) | HipEnd(deviceId: int) | DpcppEnd(deviceId: int)

  /** The ordered pairs whose copy this file implements. */
  predicate DefinedHere(src: Endpoint, dst: Endpoint)
  {
    src.CudaEnd? || (src.OmpEnd? && dst.CudaEnd?)
  }

  /** Where a pointer of an endpoint lives; with HIP built on top of the CUDA
      driver a HIP device id names a CUDA device. */
  function AddrOf(e: Endpoint, ptr: nat): Addr
    requires !e.DpcppEnd?
  {
    match e
    case OmpEnd => Addr(Host, ptr)
    case CudaEnd(x) => Addr(OnDevice(x.deviceId), ptr)
    case HipEnd(d) => Addr(OnDevice(d), ptr)
  }

  /** Whether the pair has a transfer path in this build. */
  function CopySupport(dst: Endpoint, hipOnNvcc: bool): (r: Outcome<Error>)
  {
    match dst
    case DpcppEnd(_) => Fail(NotSupported("DpcppExecutor"))
    case HipEnd(_) => if hipOnNvcc then Pass else Fail(NotSupported("HipExecutor"))
    case _ => Pass
  }

  /** The executor whose device is guarded and whose stream carries the copy:
      the destination for a host-to-device copy, the source otherwise. */
  function CopyOwner(src: Endpoint, dst: Endpoint): (x: CudaExecutor)
    requires DefinedHere(src, dst)
    ensures src.OmpEnd? ==> x == dst.exec
    ensures src.CudaEnd? ==> x == src.exec
  {
    if src.OmpEnd? then dst.exec else src.exec
  }

  function CopyKindOf(src: Endpoint, dst: Endpoint): CopyKind
  {
    if src.OmpEnd? then HostToDevice else if dst.OmpEnd? then DeviceToHost else Peer
  }

  /** The copy between two executors, chosen by the pair of their kinds. A
      supported copy of at least one byte runs under a guard for the owning
      executor's device, is queued on its stream and is followed by a
      synchronisation of that executor, so it has completed on return. */
  method RawCopyTo(rt: Runtime, src: Endpoint, dst: Endpoint, hipOnNvcc: bool,
                   numBytes: nat, srcPtr: nat, dstPtr: nat) returns (r: Outcome<Error>)
    requires DefinedHere(src, dst)
    requires rt.Valid()
    modifies rt`current, rt`saved, rt`events, rt`memory, rt`pending
    ensures rt.Valid()
    ensures rt.current == old(rt.current) && rt.saved == old(rt.saved)
    ensures r == CopySupport(dst, hipOnNvcc)
    ensures r.Fail? || numBytes == 0 ==>
      rt.events == old(rt.events) && rt.memory == old(rt.memory) && rt.pending == old(rt.pending)
    ensures r.Pass? && numBytes > 0 ==>
      var x := CopyOwner(src, dst);
      && rt.events == old(rt.events)
           + [GuardEnter(x.deviceId), MemcpyAsync(CopyKindOf(src, dst), x.stream, x.deviceId, numBytes),
              GuardEnter(x.deviceId), StreamSynchronize(x.stream, x.deviceId), GuardExit(x.deviceId),
              GuardExit(old(rt.current))]
      && rt.memory == Drain(old(rt.memory), PendingOn(old(rt.pending), x.stream)
                             + [PendingCopy(AddrOf(src, srcPtr), AddrOf(dst, dstPtr), numBytes)])
      && rt.pending == old(rt.pending)[x.stream := []]
  {
    match (src, dst)
    case (OmpEnd, CudaEnd(d)) =>
      if numBytes > 0 {
        d.CopyAndWait(rt, HostToDevice, PendingCopy(Addr(Host, srcPtr), Addr(OnDevice(d.deviceId), dstPtr), numBytes));
      }
      r := Pass;
    case (CudaEnd(s), OmpEnd) =>
      if numBytes > 0 {
        s.CopyAndWait(rt, DeviceToHost, PendingCopy(Addr(OnDevice(s.deviceId), srcPtr), Addr(Host, dstPtr), numBytes));
      }
      r := Pass;
    case (CudaEnd(s), HipEnd(d)) =>
      if hipOnNvcc {
        if numBytes > 0 {
          s.CopyAndWait(rt, Peer, PendingCopy(Addr(OnDevice(s.deviceId), srcPtr), Addr(OnDevice(d), dstPtr), numBytes));
        }
        r := Pass;
      } else {
        r := Fail(NotSupported("HipExecutor"));
      }
    case (CudaEnd(s), DpcppEnd(_)) =>
      r := Fail(NotSupported("DpcppExecutor"));
    case (CudaEnd(s), CudaEnd(d)) =>
      if numBytes > 0 {
        s.CopyAndWait(rt, Peer, PendingCopy(Addr(OnDevice(s.deviceId), srcPtr), Addr(OnDevice(d.deviceId), dstPtr), numBytes));
      }
      r := Pass;
  }

  /** A supported copy of at least one byte between buffers that both hold
      that many bytes has delivered the bytes by the time it returns: the
      destination's first `n` bytes equal the source's. */
  lemma CopyCompletesOnReturn(m: Memory, ops: seq<PendingCopy>, src: Addr, dst: Addr, n: nat)
    requires src in m && dst in m && n <= |m[src]| && n <= |m[dst]|
    ensures var m' := Drain(m, ops + [PendingCopy(src, dst, n)]);
      src in m' && dst in m' && n <= |m'[src]| && n <= |m'[dst]| && m'[dst][..n] == m'[src][..n]
  {
    CopyLands(m, ops, PendingCopy(src, dst, n));
  }

  /** One leg of a round trip: a supported copy of `n` bytes between two
      distinct buffers, issued while the owner's stream has nothing
      pending, puts the source's first `n` bytes into the destination and
      leaves every other buffer, and every stream's empty queue, as it was. */
  method CopyLeg(rt: Runtime, src: Endpoint, dst: Endpoint, n: nat, srcPtr: nat, dstPtr: nat)
    requires DefinedHere(src, dst) && CopySupport(dst, false) == Pass
    requires rt.Valid()
    requires PendingOn(rt.pending, CopyOwner(src, dst).stream) == []
    requires AddrOf(src, srcPtr) != AddrOf(dst, dstPtr)
    requires AddrOf(src, srcPtr) in rt.memory && n <= |rt.memory[AddrOf(src, srcPtr)]|
    requires AddrOf(dst, dstPtr) in rt.memory && n <= |rt.memory[AddrOf(dst, dstPtr)]|
    modifies rt`current, rt`saved, rt`events, rt`memory, rt`pending
    ensures rt.Valid()
    ensures rt.memory.Keys == old(rt.memory).Keys
    ensures forall a :: a in old(rt.memory) ==> |rt.memory[a]| == |old(rt.memory)[a]|
    ensures rt.memory[AddrOf(dst, dstPtr)][..n] == old(rt.memory)[AddrOf(src, srcPtr)][..n]
    ensures forall a :: a in old(rt.memory) && a != AddrOf(dst, dstPtr) ==> rt.memory[a] == old(rt.memory)[a]
    ensures forall t :: PendingOn(old(rt.pending), t) == [] ==> PendingOn(rt.pending, t) == []
  {
    ghost var m0, q0 := rt.memory, rt.pending;
    var c := PendingCopy(AddrOf(src, srcPtr), AddrOf(dst, dstPtr), n);
    var r := RawCopyTo(rt, src, dst, false, n, srcPtr, dstPtr);
    if n > 0 {
      assert [] + [c] == [c];
      CopyLands(m0, [], c);
      assert Drain(m0, []) == m0;
    }
    assert rt.pending == q0 || rt.pending == q0[CopyOwner(src, dst).stream := []];
  }

  /** A host-device-host round trip: the first `n` bytes of a host buffer,
      copied into a fresh buffer on a CUDA device and from there into a
      second host buffer, arrive there unchanged, for any contents. The
      device's stream has no earlier copy pending (one could overwrite the
      buffers), and its allocator places memory on the executor's own
      device, as every allocator `Create` selects does. */
  method HostDeviceHostRoundTrip(rt: Runtime, d: CudaExecutor, h1: nat, h2: nat, n: nat, data: seq<byte>)
    requires rt.Valid()
    requires |data| == n && h1 != h2
    requires Addr(Host, h1) in rt.memory && n <= |rt.memory[Addr(Host, h1)]|
    requires rt.memory[Addr(Host, h1)][..n] == data
    requires Addr(Host, h2) in rt.memory && n <= |rt.memory[Addr(Host, h2)]|
    requires AllocationDevice(d.alloc, d.deviceId) == d.deviceId
    requires PendingOn(rt.pending, d.stream) == []
    modifies rt`current, rt`saved, rt`events, rt`memory, rt`pending, rt`nextPtr
    ensures Addr(Host, h2) in rt.memory && n <= |rt.memory[Addr(Host, h2)]|
    ensures rt.memory[Addr(Host, h2)][..n] == data
  {
    var p := d.RawAlloc(rt, n, false);
    CopyLeg(rt, OmpEnd, CudaEnd(d), n, h1, p.value);
    CopyLeg(rt, CudaEnd(d), OmpEnd, n, p.value, h2);
  }

  /** A round trip between two CUDA executors: the first `n` bytes of a
      buffer on `s`'s device, copied by peer copy into a fresh buffer on
      `d`'s device and from there into a second buffer on `s`'s device,
      arrive there unchanged, for any contents. Neither stream has an
      earlier copy pending. */
  method DeviceDeviceRoundTrip(rt: Runtime, s: CudaExecutor, d: CudaExecutor, p1: nat, p2: nat, n: nat, data: seq<byte>)
    requires rt.Valid()
    requires |data| == n && p1 != p2
    requires Addr(OnDevice(s.deviceId), p1) in rt.memory && n <= |rt.memory[Addr(OnDevice(s.deviceId), p1)]|
    requires rt.memory[Addr(OnDevice(s.deviceId), p1)][..n] == data
    requires Addr(OnDevice(s.deviceId), p2) in rt.memory && n <= |rt.memory[Addr(OnDevice(s.deviceId), p2)]|
    requires AllocationDevice(d.alloc, d.deviceId) == d.deviceId
    requires PendingOn(rt.pending, s.stream) == [] && PendingOn(rt.pending, d.stream) == []
    modifies rt`current, rt`saved, rt`events, rt`memory, rt`pending, rt`nextPtr
    ensures Addr(OnDevice(s.deviceId), p2) in rt.memory && n <= |rt.memory[Addr(OnDevice(s.deviceId), p2)]|
    ensures rt.memory[Addr(OnDevice(s.deviceId), p2)][..n] == data
  {
    var p := d.RawAlloc(rt, n, false);
    CopyLeg(rt, CudaEnd(s), CudaEnd(d), n, p1, p.value);
    CopyLeg(rt, CudaEnd(d), CudaEnd(s), n, p.value, p2);
  }
}
