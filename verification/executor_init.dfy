/** How the test fixtures pick the executor they run on: one rule per
    backend for a single process, and one per backend for a process that is
    one rank of an MPI job, where the node-local rank chooses the device. */
module ExecutorInit {
  import opened Wrappers
  import CudaExecutor
  import opened Arithmetic

  datatype Backend = Reference | Omp | Cuda | Hip | Dpcpp

  /** The DPC++ device type asked for; `DefaultType` is the default of the
      `create` overload that takes no device type. */
  datatype DeviceType = DefaultType | Gpu | Cpu

  /** The arguments an `init_executor` passes to the backend's `create`:
      the device id, whether the reference executor is passed as master,
      the DPC++ device type and the allocation mode (`None` for the default
      of the overload). */
  datatype Request = Request(
    backend: Backend, deviceId: nat, withMaster: bool,
    deviceType: DeviceType, allocMode: Option<CudaExecutor.AllocationMode>)

  /** What each backend's `get_num_devices` answers on this machine: the
      CUDA driver's reply (turned into a count or a raise by
      `CudaExecutor.GetNumDevices`), the HIP count or the error it raises,
      and the DPC++ counts of gpu and cpu devices. */
  datatype DeviceCounts = DeviceCounts(
    cuda: CudaExecutor.DeviceCountReply, hip: Result<nat, CudaExecutor.Error>,
    dpcppGpu: nat, dpcppCpu: nat)

  /** Why a fixture fails: no usable device (the message it throws or
      asserts with), or the device count query itself raised. */
  datatype InitError = NoSuitable(msg: string) | Raised(error: CudaExecutor.Error)

  function HostRequest(b: Backend): Request
  {
    Request(b, 0, false, DefaultType, None)
  }

  /** The device count a fixture consults for a backend: the backend's
      query, and for DPC++ the gpu count when there is a gpu, else the cpu
      count. Host backends consult none. */
  function SelectedCount(b: Backend, counts: DeviceCounts): Result<nat, CudaExecutor.Error>
  {
    match b
    case Cuda => CudaExecutor.GetNumDevices(counts.cuda)
    case Hip => counts.hip
    case Dpcpp => Ok(if counts.dpcppGpu > 0 then counts.dpcppGpu else counts.dpcppCpu)
    case _ => Ok(0)
  }

  /** The count query raised or found no device. */
  predicate NoUsableDevice(q: Result<nat, CudaExecutor.Error>)
  {
    q.Err? || q.value == 0
  }

  /** The single-process fixture: host executors are always created; CUDA
      and HIP take device 0 and fail without a device; DPC++ takes device 0
      of the gpu type if there is one, else of the cpu type, else fails. A
      count query that raises makes the fixture fail with its error. */
  function InitExecutor(b: Backend, counts: DeviceCounts): (r: Result<Request, InitError>)
    ensures r.Ok? ==> r.value.backend == b
    ensures b == Reference || b == Omp ==> r == Ok(HostRequest(b))
    ensures b != Reference && b != Omp ==> (r.Err? <==> NoUsableDevice(SelectedCount(b, counts)))
    ensures SelectedCount(b, counts).Err? ==> r == Err(Raised(SelectedCount(b, counts).error))
    ensures b == Cuda ==>
      (r.Err? <==> counts.cuda.status != CudaExecutor.CudaSuccess || counts.cuda.count == 0)
    ensures b == Dpcpp ==> (r.Err? <==> counts.dpcppGpu == 0 && counts.dpcppCpu == 0)
    ensures b != Reference && b != Omp && r.Ok? ==> r.value.deviceId == 0 && r.value.withMaster
    ensures b == Dpcpp && r.Ok? ==> r.value.deviceType == (if counts.dpcppGpu > 0 then Gpu else Cpu)
  {
    match b
    case Reference => Ok(HostRequest(Reference))
    case Omp => Ok(HostRequest(Omp))
    case Cuda =>
      (match CudaExecutor.GetNumDevices(counts.cuda)
       case Err(e) => Err(Raised(e))
       case Ok(n) =>
         if n == 0 then Err(NoSuitable("No suitable CUDA devices"))
         else Ok(Request(Cuda, 0, true, DefaultType, None)))
    case Hip =>
      (match counts.hip
       case Err(e) => Err(Raised(e))
       case Ok(n) =>
         if n == 0 then Err(NoSuitable("No suitable HIP devices"))
         else Ok(Request(Hip, 0, true, DefaultType, None)))
    case Dpcpp =>
      if counts.dpcppGpu > 0 then Ok(Request(Dpcpp, 0, true, Gpu, None))
      else if counts.dpcppCpu > 0 then Ok(Request(Dpcpp, 0, true, Cpu, None))
      else Err(NoSuitable("No suitable DPC++ devices"))
  }

  /** The MPI fixture: host executors are always created; an accelerator
      backend whose count query raises, or finds no device, fails (a failed
      test assertion ends the fixture), otherwise the device is the
      node-local rank modulo the device count. CUDA asks for plain device
      allocation explicitly. */
  function InitExecutorMpi(b: Backend, counts: DeviceCounts, nodeLocalRank: nat): (r: Result<Request, InitError>)
    ensures r.Ok? ==> r.value.backend == b
    ensures b == Reference || b == Omp ==> r == Ok(HostRequest(b))
    ensures b != Reference && b != Omp ==>
      && (r.Err? <==> NoUsableDevice(SelectedCount(b, counts)))
      && (r.Ok? ==> r.value.deviceId == nodeLocalRank % SelectedCount(b, counts).value
                    && r.value.deviceId < SelectedCount(b, counts).value && r.value.withMaster)
    ensures SelectedCount(b, counts).Err? ==> r == Err(Raised(SelectedCount(b, counts).error))
    ensures b == Cuda ==>
      (r.Err? <==> counts.cuda.status != CudaExecutor.CudaSuccess || counts.cuda.count == 0)
    ensures b == Cuda && r.Ok? ==> r.value.allocMode == Some(CudaExecutor.Device)
    ensures b != Cuda && r.Ok? ==> r.value.allocMode == None
  {
    match b
    case Reference => Ok(HostRequest(Reference))
    case Omp => Ok(HostRequest(Omp))
    case Cuda =>
      (match CudaExecutor.GetNumDevices(counts.cuda)
       case Err(e) => Err(Raised(e))
       case Ok(n) =>
         if !(n > 0) then Err(NoSuitable("Expected: (get_num_devices()) > (0)"))
         else Ok(Request(Cuda, nodeLocalRank % n, true, DefaultType, Some(CudaExecutor.Device))))
    case Hip =>
      (match counts.hip
       case Err(e) => Err(Raised(e))
       case Ok(n) =>
         if !(n > 0) then Err(NoSuitable("Expected: (get_num_devices()) > (0)"))
         else Ok(Request(Hip, nodeLocalRank % n, true, DefaultType, None)))
    case Dpcpp =>
      if counts.dpcppGpu > 0 then Ok(Request(Dpcpp, nodeLocalRank % counts.dpcppGpu, true, DefaultType, None))
      else if counts.dpcppCpu > 0 then Ok(Request(Dpcpp, nodeLocalRank % counts.dpcppCpu, true, DefaultType, None))
      else Err(NoSuitable("No suitable DPC++ devices"))
  }

  /** Host executors never look at the device counts. */
  lemma HostInitIgnoresCounts(b: Backend, c1: DeviceCounts, c2: DeviceCounts, rank: nat)
    requires b == Reference || b == Omp
    ensures InitExecutor(b, c1) == InitExecutor(b, c2) == InitExecutorMpi(b, c1, rank)
  {
  }

  /** Rank 0 of an MPI job fails exactly when the single-process fixture
      fails, with the same error when the count query raised, and
      otherwise gets the same device, device 0. */
  lemma MpiRankZeroAgrees(b: Backend, counts: DeviceCounts)
    ensures InitExecutorMpi(b, counts, 0).Ok? <==> InitExecutor(b, counts).Ok?
    ensures SelectedCount(b, counts).Err? ==> InitExecutorMpi(b, counts, 0) == InitExecutor(b, counts)
    ensures InitExecutorMpi(b, counts, 0).Ok? ==>
      InitExecutorMpi(b, counts, 0).value.deviceId == InitExecutor(b, counts).value.deviceId == 0
  {
  }

  /** The node-local ranks are dealt out to the devices round robin: ranks
      that are fewer than the device count apart get different devices, and
      ranks that differ by a multiple of the count share one. */
  lemma MpiRoundRobin(b: Backend, counts: DeviceCounts, r1: nat, r2: nat, k: nat)
    requires b != Reference && b != Omp
    requires SelectedCount(b, counts).Ok? && SelectedCount(b, counts).value > 0
    requires r1 < r2 < r1 + SelectedCount(b, counts).value
    ensures InitExecutorMpi(b, counts, r1).value.deviceId != InitExecutorMpi(b, counts, r2).value.deviceId
    ensures InitExecutorMpi(b, counts, r1).value.deviceId
         == InitExecutorMpi(b, counts, r1 + k * SelectedCount(b, counts).value).value.deviceId
  {
    var n := SelectedCount(b, counts).value;
    ModuloWindow(r1, r2, n);
    ModuloPeriodic(r1, k, n);
  }

  lemma ModuloWindow(r1: nat, r2: nat, n: nat)
    requires 0 < n && r1 < r2 < r1 + n
    ensures r1 % n != r2 % n
  {
    var q, m, d := r1 / n, r1 % n, r2 - r1;
    if m + d < n {
      ModuloUnique(r2, q, m + d, n);
    } else {
      assert r2 == (q + 1) * n + (m + d - n);
      ModuloUnique(r2, q + 1, m + d - n, n);
    }
  }

  lemma ModuloPeriodic(r: nat, k: nat, n: nat)
    requires 0 < n
    ensures (r + k * n) % n == r % n
  {
    assert r + k * n == (r / n + k) * n + r % n;
    ModuloUnique(r + k * n, r / n + k, r % n, n);
  }
}
