/** Resource limits: do_prlimit over a task's table of limits, and the conversions around it. */
module ResourceLimits {
  import opened Options

  const EPERM := 1
  const ESRCH := 3
  const EINVAL := 22

  const RLIM_NLIMITS := 16
  const RLIMIT_CPU := 0
  const RLIMIT_NOFILE := 7

  /** A soft and a hard limit. */
  datatype Rlimit = Rlimit(soft: nat, hard: nat)

  /** What the surroundings answer during a call. */
  datatype Oracles = Oracles(
    hasSighand: bool,   // it still has signal handlers
    capable: bool,      // capable(CAP_SYS_RESOURCE)
    lsm: int,           // security_task_setrlimit
    nrOpen: nat)        // sysctl_nr_open

  /** A CPU limit of 0 seconds stands for "never set", so 1 is stored instead. */
  function Stored(resource: nat, wanted: Rlimit): Rlimit {
    if resource == RLIMIT_CPU && wanted.soft == 0 then Rlimit(1, wanted.hard) else wanted
  }

  function Answer(limits: seq<Rlimit>, resource: nat, wanted: Option<Rlimit>, o: Oracles): int
    requires |limits| == RLIM_NLIMITS
  {
    if resource >= RLIM_NLIMITS then -EINVAL
    else if wanted.Some? && wanted.value.soft > wanted.value.hard then -EINVAL
    else if wanted.Some? && resource == RLIMIT_NOFILE && wanted.value.hard > o.nrOpen then -EPERM
    else if !o.hasSighand then -ESRCH
    else if wanted.Some? && wanted.value.hard > limits[resource].hard && !o.capable then -EPERM
    else if wanted.Some? then o.lsm
    else 0
  }

  function Limits(limits: seq<Rlimit>, resource: nat, wanted: Option<Rlimit>, o: Oracles): (r: seq<Rlimit>)
    requires |limits| == RLIM_NLIMITS
    ensures |r| == RLIM_NLIMITS
  {
    if Answer(limits, resource, wanted, o) == 0 && wanted.Some? && resource < RLIM_NLIMITS
    then limits[resource := Stored(resource, wanted.value)] else limits
  }

  /**
   A request succeeds exactly if the resource exists, soft is not above hard, a file limit is
   within the system's, the process still has its signal handlers, a hard limit rises only with
   the capability, and the LSM consents.
   */
  lemma SucceedsExactly(limits: seq<Rlimit>, resource: nat, wanted: Rlimit, o: Oracles)
    requires |limits| == RLIM_NLIMITS && o.lsm <= 0
    ensures Answer(limits, resource, Some(wanted), o) == 0
            <==> && resource < RLIM_NLIMITS && wanted.soft <= wanted.hard
                 && (resource == RLIMIT_NOFILE ==> wanted.hard <= o.nrOpen)
                 && o.hasSighand && (wanted.hard <= limits[resource].hard || o.capable) && o.lsm == 0
  {
  }

  /** The error names the first of these that fails. */
  lemma FailsExactly(limits: seq<Rlimit>, resource: nat, wanted: Rlimit, o: Oracles)
    requires |limits| == RLIM_NLIMITS && o.lsm == 0
    ensures var err := Answer(limits, resource, Some(wanted), o);
            var wellFormed := resource < RLIM_NLIMITS && wanted.soft <= wanted.hard;
            var tooMany := resource == RLIMIT_NOFILE && wanted.hard > o.nrOpen;
            && (err == -EINVAL <==> !wellFormed)
            && (err == -ESRCH <==> wellFormed && !tooMany && !o.hasSighand)
            && (err == -EPERM <==> wellFormed && (tooMany || (o.hasSighand && wanted.hard > limits[resource].hard
                                                               && !o.capable)))
            && err in {0, -EINVAL, -ESRCH, -EPERM}
  {
  }

  /** Reading a limit needs only the resource and the signal handlers, and changes nothing. */
  lemma ReadsExactly(limits: seq<Rlimit>, resource: nat, o: Oracles)
    requires |limits| == RLIM_NLIMITS
    ensures Answer(limits, resource, None, o) == 0 <==> resource < RLIM_NLIMITS && o.hasSighand
    ensures Answer(limits, resource, None, o) in {0, -EINVAL, -ESRCH}
    ensures Limits(limits, resource, None, o) == limits
  {
  }

  /** What is stored is what was asked for, but for a CPU limit of 0 seconds; no other limit changes. */
  lemma StoresExactly(limits: seq<Rlimit>, resource: nat, wanted: Rlimit, o: Oracles, i: nat)
    requires |limits| == RLIM_NLIMITS && i < RLIM_NLIMITS
    ensures var r := Limits(limits, resource, Some(wanted), o);
            if Answer(limits, resource, Some(wanted), o) == 0 && i == resource then
              && r[i].hard == wanted.hard
              && (i != RLIMIT_CPU || wanted.soft > 0 ==> r[i].soft == wanted.soft)
              && (i == RLIMIT_CPU && wanted.soft == 0 ==> r[i].soft == 1)
            else r[i] == limits[i]
  {
  }

  // ----- runs -----

  datatype Call = Call(resource: nat, wanted: Option<Rlimit>, o: Oracles)

  function After(limits: seq<Rlimit>, run: seq<Call>): (r: seq<Rlimit>)
    requires |limits| == RLIM_NLIMITS
    ensures |r| == RLIM_NLIMITS
    decreases |run|
  {
    if run == [] then limits
    else After(Limits(limits, run[0].resource, run[0].wanted, run[0].o), run[1..])
  }

  /** Soft limits stay below hard ones; the CPU limit may also be one second over a hard 0. */
  ghost predicate InOrder(limits: seq<Rlimit>) {
    forall i :: 0 <= i < |limits| ==>
      limits[i].soft <= limits[i].hard || (i == RLIMIT_CPU && limits[i] == Rlimit(1, 0))
  }

  lemma {:induction false} RunInOrder(limits: seq<Rlimit>, run: seq<Call>)
    requires |limits| == RLIM_NLIMITS && InOrder(limits)
    ensures InOrder(After(limits, run))
    decreases |run|
  {
    if run != [] {
      RunInOrder(Limits(limits, run[0].resource, run[0].wanted, run[0].o), run[1..]);
    }
  }

  /** That exception is real, and comes from exactly one request. */
  lemma OutOfOrderExactly(limits: seq<Rlimit>, resource: nat, wanted: Rlimit, o: Oracles)
    requires |limits| == RLIM_NLIMITS
    requires Answer(limits, resource, Some(wanted), o) == 0 && o.lsm <= 0
    ensures resource < RLIM_NLIMITS
    ensures var stored := Limits(limits, resource, Some(wanted), o)[resource];
            stored.soft > stored.hard <==> resource == RLIMIT_CPU && wanted == Rlimit(0, 0)
  {
  }

  /** Over any run without the resource capability, no hard limit ever rises. */
  lemma {:induction false} HardNeverRises(limits: seq<Rlimit>, run: seq<Call>, i: nat)
    requires |limits| == RLIM_NLIMITS && i < RLIM_NLIMITS
    requires forall k :: 0 <= k < |run| ==> !run[k].o.capable
    ensures After(limits, run)[i].hard <= limits[i].hard
    decreases |run|
  {
    if run != [] {
      HardNeverRises(Limits(limits, run[0].resource, run[0].wanted, run[0].o), run[1..], i);
    }
  }

  // ----- conversions -----

  const RLIM64_INFINITY: nat := 0xFFFF_FFFF_FFFF_FFFF
  const COMPAT_RLIM_INFINITY: nat := 0xFFFF_FFFF

  /** ULONG_MAX, which is also RLIM_INFINITY, on a machine with 32- or 64-bit longs. */
  function UlongMax(bits: nat): nat {
    if bits < 64 then 0xFFFF_FFFF else 0xFFFF_FFFF_FFFF_FFFF
  }

  predicate Rlim64IsInfinity(bits: nat, limit: nat) {
    if bits < 64 then limit >= UlongMax(bits) else limit == RLIM64_INFINITY
  }

  function To64(bits: nat, limit: nat): nat {
    if limit == UlongMax(bits) then RLIM64_INFINITY else limit
  }

  function From64(bits: nat, limit64: nat): nat {
    if Rlim64IsInfinity(bits, limit64) then UlongMax(bits) else limit64 % (UlongMax(bits) + 1)
  }

  /** From native to 64 bits and back is the identity, for either width of long. */
  lemma NativeRoundTrip(bits: nat, limit: nat)
    requires limit <= UlongMax(bits)
    ensures To64(bits, limit) <= RLIM64_INFINITY && From64(bits, To64(bits, limit)) == limit
  {
  }

  /** From 64 bits to native and back loses exactly what a native long cannot hold. */
  lemma WideRoundTrip(bits: nat, limit64: nat)
    requires limit64 <= RLIM64_INFINITY
    ensures From64(bits, limit64) <= UlongMax(bits)
    ensures To64(bits, From64(bits, limit64)) == limit64
            <==> limit64 < UlongMax(bits) || limit64 == RLIM64_INFINITY
    ensures limit64 >= UlongMax(bits) ==> To64(bits, From64(bits, limit64)) == RLIM64_INFINITY
  {
  }

  /** The conversions of compat_setrlimit and compat_getrlimit. */
  function FromCompat(bits: nat, limit32: nat): nat {
    if limit32 == COMPAT_RLIM_INFINITY then UlongMax(bits) else limit32
  }

  function ToCompat(limit: nat): nat {
    if limit > COMPAT_RLIM_INFINITY then COMPAT_RLIM_INFINITY else limit
  }

  lemma CompatRoundTrip(bits: nat, limit32: nat)
    requires limit32 <= COMPAT_RLIM_INFINITY
    ensures ToCompat(FromCompat(bits, limit32)) == limit32
  {
  }

  /** A compat reader sees a limit exactly if it is at most the 32-bit infinity, and infinity otherwise. */
  lemma CompatSeenExactly(limit: nat)
    ensures ToCompat(limit) <= COMPAT_RLIM_INFINITY
    ensures ToCompat(limit) == limit <==> limit <= COMPAT_RLIM_INFINITY
    ensures limit > COMPAT_RLIM_INFINITY ==> ToCompat(limit) == COMPAT_RLIM_INFINITY
  {
  }

  /** A compat writer's limit is stored as it is, and its infinity as the native one. */
  lemma CompatStoredExactly(bits: nat, limit32: nat)
    ensures limit32 < COMPAT_RLIM_INFINITY ==> FromCompat(bits, limit32) == limit32
    ensures FromCompat(bits, COMPAT_RLIM_INFINITY) == UlongMax(bits)
  {
  }

  // ----- the call, in place -----

  /** A struct rlimit that a caller passes by reference. */
  class RlimitBox {
    var soft: nat
    var hard: nat

    constructor (r: Rlimit)
      ensures Value() == r
    {
      soft, hard := r.soft, r.hard;
    }

    function Value(): Rlimit
      reads this
    {
      Rlimit(soft, hard)
    }
  }

  function Wanted(box: RlimitBox?): Option<Rlimit>
    reads box
  {
    if box == null then None else Some(box.Value())
  }

  /**
   do_prlimit.  The caller's request is rewritten to one CPU second where it asked for none,
   even if it is then refused.  `cpu` is the limit handed to update_rlimit_cpu, if any.
   */
  method DoPrlimit(rlim: array<Rlimit>, resource: nat, newRlim: RlimitBox?, oldRlim: RlimitBox?, o: Oracles,
                   infinity: nat)
    returns (retval: int, cpu: Option<nat>)
    requires rlim.Length == RLIM_NLIMITS && o.lsm <= 0
    requires newRlim != null ==> newRlim != oldRlim
    modifies rlim, newRlim, oldRlim
    ensures retval == Answer(old(rlim[..]), resource, old(Wanted(newRlim)), o)
    ensures rlim[..] == Limits(old(rlim[..]), resource, old(Wanted(newRlim)), o)
    ensures oldRlim != null ==>
              oldRlim.Value() == if retval == 0 then old(rlim[..])[resource] else old(oldRlim.Value())
    ensures newRlim != null ==>
              newRlim.Value() == if old(newRlim.soft <= newRlim.hard) && o.hasSighand
                                 then Stored(resource, old(newRlim.Value())) else old(newRlim.Value())
    ensures cpu == if retval == 0 && newRlim != null && resource == RLIMIT_CPU
                      && Stored(resource, old(newRlim.Value())).soft != infinity
                   then Some(Stored(resource, old(newRlim.Value())).soft) else None
  {
    retval, cpu := 0, None;
    if resource >= RLIM_NLIMITS {
      return -EINVAL, None;
    }
    if newRlim != null {
      if newRlim.soft > newRlim.hard {
        return -EINVAL, None;
      }
      if resource == RLIMIT_NOFILE && newRlim.hard > o.nrOpen {
        return -EPERM, None;
      }
    }
    if !o.hasSighand {
      return -ESRCH, None;
    }
    if newRlim != null {
      if newRlim.hard > rlim[resource].hard && !o.capable {
        retval := -EPERM;
      }
      if retval == 0 {
        retval := o.lsm;
      }
      if resource == RLIMIT_CPU && newRlim.soft == 0 {
        newRlim.soft := 1;
      }
    }
    if retval == 0 {
      if oldRlim != null {
        oldRlim.soft, oldRlim.hard := rlim[resource].soft, rlim[resource].hard;
      }
      if newRlim != null {
        rlim[resource] := newRlim.Value();
      }
    }
    if retval == 0 && newRlim != null && resource == RLIMIT_CPU && newRlim.soft != infinity {
      cpu := Some(newRlim.soft);
    }
  }
}
