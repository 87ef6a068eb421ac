/** Exclusive per-adapter leases and their in-process registry
    (src/governor/exclusive_gpu_lease.cpp). A lease id is an injective printing of the adapter
    LUID, so the registry is modelled as a set of LUIDs. */
module GpuLease {
  import opened SupervisorAdmission

  /** What the operating system answers when asked for the named mutex or socket. */
  datatype OsAnswer = Granted | HeldElsewhere | OsFailed

  datatype LeaseStatus = Acquired | InvalidAdapter | AlreadyHeldInProcess | HeldByAnotherProcess | SystemError

  function AcquireStatus(registry: set<Luid>, luid: Luid, os: OsAnswer): LeaseStatus {
    if luid == Luid(0, 0) then InvalidAdapter
    else if luid in registry then AlreadyHeldInProcess
    else match os
      case Granted => Acquired
      case HeldElsewhere => HeldByAnotherProcess
      case OsFailed => SystemError
  }

  class LeaseRegistry {
    var active: set<Luid>

    constructor ()
      ensures active == {}
    {
      active := {};
    }
  }

  class ExclusiveGpuLease {
    var luid: Luid
    /** native_handle_ != nullptr */
    var held: bool

    constructor (luid: Luid)
      ensures this.luid == luid && held
    {
      this.luid, held := luid, true;
    }

    /** quarantine_for_process_lifetime: the registry entry is deliberately left behind. */
    method Quarantine()
      modifies this
      ensures !held && luid == old(luid)
    {
      held := false;
    }

    /** release(), also run by the destructor. */
    method Release(registry: LeaseRegistry)
      modifies this, registry
      ensures !held && luid == old(luid)
      ensures registry.active == if old(held) then old(registry.active) - {luid} else old(registry.active)
    {
      if !held { return; }
      registry.active := registry.active - {luid};
      held := false;
    }

    /** Move assignment gives up what it held before taking over the other's authority. */
    method MoveFrom(other: ExclusiveGpuLease, registry: LeaseRegistry)
      modifies this, other, registry
      ensures this == other ==> held == old(held) && luid == old(luid) && registry.active == old(registry.active)
      ensures this != other ==>
        && held == old(other.held) && luid == old(other.luid) && !other.held
        && registry.active == if old(held) then old(registry.active) - {old(luid)} else old(registry.active)
    {
      if this == other { return; }
      Release(registry);
      luid, held := other.luid, other.held;
      other.luid, other.held := Luid(0, 0), false;
    }
  }

  /** acquire_exclusive_gpu_lease: the entry is inserted first and erased again on every
      path that does not end in a lease. */
  method AcquireLease(registry: LeaseRegistry, luid: Luid, os: OsAnswer)
    returns (status: LeaseStatus, lease: ExclusiveGpuLease?)
    modifies registry
    ensures status == AcquireStatus(old(registry.active), luid, os)
    ensures status.Acquired? <==> lease != null
    ensures lease != null ==> fresh(lease) && lease.luid == luid && lease.held
    ensures registry.active == if status.Acquired? then old(registry.active) + {luid} else old(registry.active)
  {
    lease := null;
    if luid.high == 0 && luid.low == 0 { return InvalidAdapter, null; }
    if luid in registry.active { return AlreadyHeldInProcess, null; }
    registry.active := registry.active + {luid};
    if !os.Granted? {
      registry.active := registry.active - {luid};
      status := if os.HeldElsewhere? then HeldByAnotherProcess else SystemError;
      return;
    }
    lease := new ExclusiveGpuLease(luid);
    status := Acquired;
  }
}
