/** The kernel behind `getrlimit` and `setrlimit`, as section getrlimit() of
    POSIX.1-2017 describes it: a soft and a hard limit per resource id.
    An invalid resource id, or a soft limit above the hard limit, is EINVAL;
    raising a hard limit without privilege is EPERM.  `getFault` and
    `setFault` stand for every other way the respective call can fail
    (EFAULT, or an errno a stub returns): when set, that call fails with it
    and nothing changes. */
module Syscalls {
  import opened Types
  import opened Codec
  import Errno

  /** Both calls take the resource id as a C `int`, 32 bits wide on Linux;
      FFI raises RangeError for an Integer outside that range before any
      call is made. */
  const INT_MIN: int := -0x8000_0000
  const INT_MAX: int := 0x7fff_ffff

  predicate IsCInt(id: int) {
    INT_MIN <= id <= INT_MAX
  }

  /** The argument of one `setrlimit` call. */
  datatype Write = Write(id: int, soft: RlimT, hard: RlimT)

  datatype State = State(limits: map<int, (RlimT, RlimT)>, privileged: bool,
                         getFault: Option<int>, setFault: Option<int>)

  /** No resource has its soft limit above its hard limit. */
  predicate Ordered(s: State) {
    forall id :: id in s.limits ==> s.limits[id].0 <= s.limits[id].1
  }

  /** `getrlimit`: the current pair, or the errno of the failure. */
  function GetRLimit(s: State, id: int): (r: Result<(RlimT, RlimT), int>)
    ensures s.getFault.Some? ==> r == Err(s.getFault.value)
    ensures s.getFault.None? && id !in s.limits ==> r == Err(Errno.EINVAL)
    ensures s.getFault.None? && id in s.limits ==> r == Ok(s.limits[id])
  {
    if s.getFault.Some? then Err(s.getFault.value)
    else if id !in s.limits then Err(Errno.EINVAL)
    else Ok(s.limits[id])
  }

  /** The errno `setrlimit` reports for a write, or None when it accepts it. */
  function SetRLimitErrno(s: State, w: Write): (r: Option<int>)
    ensures s.setFault.Some? ==> r == s.setFault
    ensures s.setFault.None? && (w.id !in s.limits || w.soft > w.hard) ==> r == Some(Errno.EINVAL)
    ensures s.setFault.None? && w.id in s.limits && w.soft <= w.hard ==>
      (r == Some(Errno.EPERM) <==> w.hard > s.limits[w.id].1 && !s.privileged)
    ensures r.None? <==>
      s.setFault.None? && w.id in s.limits && w.soft <= w.hard && (s.privileged || w.hard <= s.limits[w.id].1)
  {
    if s.setFault.Some? then s.setFault
    else if w.id !in s.limits || w.soft > w.hard then Some(Errno.EINVAL)
    else if w.hard > s.limits[w.id].1 && !s.privileged then Some(Errno.EPERM)
    else None
  }

  /** The kernel after a `setrlimit` call: an accepted write replaces the
      pair of its own resource, and no other resource changes. */
  function AfterSetRLimit(s: State, w: Write): (t: State)
    ensures t.privileged == s.privileged && t.getFault == s.getFault && t.setFault == s.setFault
    ensures t.limits.Keys == s.limits.Keys
    ensures forall id :: id in s.limits && id != w.id ==> t.limits[id] == s.limits[id]
    ensures SetRLimitErrno(s, w).None? ==> t.limits[w.id] == (w.soft, w.hard)
    ensures SetRLimitErrno(s, w).Some? ==> t == s
    ensures Ordered(s) ==> Ordered(t)
  {
    if SetRLimitErrno(s, w).None? then s.(limits := s.limits[w.id := (w.soft, w.hard)]) else s
  }

  /** The kernel as mutable state; `writes` records every `setrlimit` call,
      accepted or not. */
  class Kernel {
    var limits: map<int, (RlimT, RlimT)>
    const privileged: bool
    const getFault: Option<int>
    const setFault: Option<int>
    var writes: seq<Write>

    function Snapshot(): State
      reads this
    {
      State(limits, privileged, getFault, setFault)
    }

    constructor (s: State)
      ensures Snapshot() == s
      ensures writes == []
    {
      limits := s.limits;
      privileged := s.privileged;
      getFault := s.getFault;
      setFault := s.setFault;
      writes := [];
    }

    /** `setrlimit(w.id, {w.soft, w.hard})`. */
    method SetRLimit(w: Write) returns (errno: Option<int>)
      modifies this
      ensures errno == SetRLimitErrno(old(Snapshot()), w)
      ensures Snapshot() == AfterSetRLimit(old(Snapshot()), w)
      ensures writes == old(writes) + [w]
    {
      errno := SetRLimitErrno(Snapshot(), w);
      limits := AfterSetRLimit(Snapshot(), w).limits;
      writes := writes + [w];
    }
  }
}
