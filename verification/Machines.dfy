/**
 * The ProxmoxMachine object as the machine controller sees it, what one reconcile can observe,
 * and the record of what reconciles did.
 */
module Machines {
  import opened Strings

  type VmId = int
  type TaskId = int // stands for the UPID
  type Time = int // seconds

  /** Reasons of the VirtualMachineProvisioned condition; the controller's program counter. */
  datatype Reason =
    | NoCondition
    | WaitingForClusterInfrastructureReady
    | WaitingForBootstrapData
    | Cloning
    | CloningFailed
    | WaitingForDiskReconciliation
    | WaitingForStaticIPAllocation
    | WaitingForBootstrapDataReconciliation
    | WaitingForVMPowerUp
    | PoweringOnFailed
    | WaitingForClusterAPIMachineAddresses
    | WaitingForCloudInit
    | WaitingForBootstrapReady
    | FailureDomainNotReady
    | ZoneClientUnavailable
    | VMProvisionFailed
    | TaskFailed
    | Deleting
    | DeletionFailed
    | Provisioned

  datatype TaskRef = NoTask | TaskRef(id: TaskId)

  datatype RetryAfter = NoRetry | RetryAt(time: Time)

  const NO_VMID: VmId := -1

  datatype Machine = Machine(
    name: string,
    reason: Reason,
    taskRef: TaskRef,
    retryAfter: RetryAfter,
    vmid: VmId,               // NO_VMID when spec.virtualMachineID is nil
    providerID: string,       // "" when not set
    selfAllocated: bool,      // vmid.capmox.cluster.x-k8s.io/allocated-by-controller
    finalizer: bool,
    node: string,             // status.proxmoxNode, "" when nil
    placed: string,           // the node of this machine's entry in nodeLocations, "" when it has none
    provisioned: bool,
    bootstrapProvided: bool,
    ipAddresses: bool,        // status.ipAddresses is non-empty (then it has a "default" entry)
    addresses: bool)          // status.addresses is set
  {
    /** LocateProxmoxNode */
    function Locate(sourceNode: string): string {
      if node != "" then node else if placed != "" then placed else sourceNode
    }

    /** vmIDCollisionIsRecoverable */
    predicate Recoverable() {
      providerID == "" && selfAllocated
    }
  }

  datatype Power = Running | Stopped | Paused | Hibernated | OtherPower

  datatype VmView = VmView(name: string, node: string, power: Power, hasMacs: bool, uuid: string)

  datatype VmLookup = VmMissing | Vm(view: VmView)

  /** A Proxmox task as go-proxmox reports it. */
  datatype Task = Task(isRunning: bool, isSuccessful: bool, isCompleted: bool, isFailed: bool,
                       exitWarnings: bool, qmstart: bool)
  {
    /** Over, and either successful or with an exit status of warnings only. */
    predicate WentWell() {
      !isRunning && isCompleted && (isSuccessful || exitWarnings)
    }

    /** Over with a failure. A task that is neither has an outcome nobody knows. */
    predicate WentWrong() {
      !isRunning && isFailed && !(isCompleted && (isSuccessful || exitWarnings))
    }
  }

  datatype TaskLookup = LookupFailed | NilTask | Found(task: Task)

  datatype CreateObs =
    | VMIDError(rangeExhausted: bool)
    | ScheduleError(insufficient: bool)
    | TemplateError(notFound: bool)
    | CloneError
    | CloneAccepted(id: VmId, task: TaskId, target: string)

  /** FindVMResource, then GetVM on the node it names. */
  datatype LocateObs = NotLocated | Located(vm: VmLookup)

  datatype ConfigObs = NothingToConfigure | ConfigureError | ConfigureAccepted(task: TaskId)

  datatype DiskObs = NoDisks | NoBootVolume | ResizeError | ResizeAccepted(task: TaskId)

  /** Outcome of one IPAddressClaim. */
  datatype Claim = ClaimUnresolvable | ClaimMissing(createOk: bool) | ClaimPending | ClaimResolved | ClaimConflict

  /** First address of a default pool. */
  datatype PoolHead = NoAddress | Address(ipv4: bool, tagged: bool, tag: TaskRef)  // tag: NoTask when the request fails
  {
    /** setVMIPAddressTag asks Proxmox to tag the VM. */
    predicate NeedsTag() {
      Address? && ipv4 && !tagged
    }
  }

  datatype NetObs = NetObs(present: bool, devices: bool, poolsErr: bool, claims: seq<Claim>, heads: seq<PoolHead>)

  datatype Format = CloudConfig | Ignition | UnknownFormat

  datatype BootstrapObs = DataError | Data(format: Format, deviceDataOk: bool, vrfDataOk: bool, injectOk: bool)

  datatype CloudInitObs = CloudInitRunning | CloudInitFailed | CloudInitError | CloudInitDone

  /** What the Proxmox client's DeleteVM meets, call by call. */
  datatype DeleteObs = DeleteObs(nodeOk: bool, clusterOk: bool, check: CheckId, readable: bool, running: bool,
                                 stopOk: bool, deleteOk: bool, errorSaysDoesNotExist: bool)
  datatype CheckId = IdFree | IdTaken | CheckError

  /** A row of the cluster-wide VM listing. */
  datatype Resource = NoResource | Resource(node: string, name: string)

  /** Everything one reconcile reads from outside the machine object. */
  datatype Obs = Obs(
    now: Time,
    infraReady: bool, dataSecret: bool, finalizerPatchOk: bool, failureDomainOk: bool, clientOk: bool,
    lookup: TaskLookup,
    vm: VmLookup,
    locate: LocateObs,
    clusterPatchOk: bool,
    create: CreateObs,
    config: ConfigObs,
    disks: DiskObs,
    net: NetObs,
    bootstrap: BootstrapObs,
    start: TaskRef,  // NoTask when the request fails
    skipAgent: bool, skipCloudInitStatus: bool, agentOk: bool, cloudInit: CloudInitObs,
    machineAvailable: bool, unmountOk: bool,
    untag: TaskRef,  // the removal of the cloud-init tag, NoTask if the VM has none
    sourceNode: string, del: DeleteObs, resource: Resource)

  /** What reconciles did, in order: Proxmox mutations first, then milestones. */
  datatype Event =
    | Cloned(id: VmId, task: TaskId)
    | Configured(id: VmId, task: TaskId)
    | Resized(id: VmId, task: TaskId)
    | Tagged(id: VmId, task: TaskId)
    | Injected(id: VmId)
    | Started(id: VmId, task: TaskId)
    | Resumed(id: VmId, task: TaskId)
    | Unmounted(id: VmId, untag: TaskRef)
    | StoppedVM(id: VmId)
    | DeleteRequested(id: VmId)
    | IPsWritten(id: VmId)
    | SeenRunning(id: VmId)
    | FailureSeen(task: TaskId, at: Time)
    | TaskDropped(task: TaskId, at: Time)
  {
    /** The event changed something on Proxmox. */
    predicate Mutation() {
      !IPsWritten? && !SeenRunning? && !FailureSeen? && !TaskDropped?
    }

    /** The event started a Proxmox task, whether or not the controller keeps a reference to it. */
    predicate StartsTask() {
      if Unmounted? then untag.TaskRef? else Mutation() && !Injected?
    }

    /** The task the event started, if the controller keeps it in TaskRef. */
    function KeptTask(): TaskRef {
      match this
      case Cloned(_, t) => TaskRef(t)
      case Configured(_, t) => TaskRef(t)
      case Tagged(_, t) => TaskRef(t)
      case Started(_, t) => TaskRef(t)
      case Resumed(_, t) => TaskRef(t)
      case _ => NoTask
    }
  }

  datatype Verdict = Continue | Requeue | Failed | Idle | Ready

  /** What was done for a machine, newest last. */
  datatype Log = Empty | Log(before: Log, e: Event)
  {
    predicate Has(x: Event) {
      match this
      case Empty => false
      case Log(before, e) => e == x || before.Has(x)
    }
  }

  /** The machine object and everything done for it so far. */
  datatype Scope = Scope(m: Machine, log: Log)

  datatype Step = Step(s: Scope, verdict: Verdict)

  const PROVIDER_SCHEME := "proxmox://"

  const TASK_BACKOFF: Time := 60

  /** placeholderVMName */
  function PlaceholderName(id: VmId): string {
    "VM " + Decimal(id)
  }

  /** A VM Proxmox has registered but not named yet. */
  predicate Unnamed(name: string, id: VmId) {
    name == "" || name == PlaceholderName(id)
  }

  /** The machine's VMID is set, and the VM behind it answers to the machine's own name, given for good. */
  predicate OwnVM(m: Machine, got: VmLookup) {
    m.vmid > 0 && got.Vm? && got.view.name == m.name && !Unnamed(m.name, m.vmid)
  }
}
