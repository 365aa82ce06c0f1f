/** The behaviour the library's own examples describe, on a Linux-like
    platform where RLIMIT_NOFILE is 7, RLIM_INFINITY is the largest
    `rlim_t`, and the kernel holds a soft limit of 1024 and a hard limit of
    1048576 open files. */
module Scenarios {
  import opened Types
  import opened Codec
  import opened Platform
  import opened Resolver
  import opened Errno
  import opened Syscalls
  import opened RLimit
  import opened ResourceList

  const NOFILE: int := 7

  const LINUX: Platform := Platform(
    map[
      "CPU" := IntC(0), "NOFILE" := IntC(NOFILE), "RLIM_INFINITY" := IntC(RLIM_T_MAX),
      "HardLimitExceeded" := OtherC, "PermissionDenied" := OtherC, "FFI" := OtherC,
      "POSSIBLE_RESOURCES" := OtherC, "RLimit" := OtherC
    ],
    ["HardLimitExceeded", "PermissionDenied", "FFI", "POSSIBLE_RESOURCES", "RLIM_INFINITY", "CPU", "NOFILE"],
    RLIM_T_MAX)

  const STUB: State := State(map[NOFILE := (1024, 1048576)], false, None, None)

  /** The same kernel with an unlimited hard limit. */
  const UNLIMITED_STUB: State := State(map[NOFILE := (1024, RLIM_T_MAX)], false, None, None)

  lemma LinuxWellFormed()
    ensures WellFormed(LINUX)
  {
  }

  /** Every constant the Linux-like platform lists is defined, and its
      resource constants are Integers. */
  lemma LinuxResourcesDefined()
    ensures ResourcesDefined(LINUX)
  {
    ExceptionsNotPossible();
    InfinityNotPossible();
    ModuleConstantsNotPossible();
    forall i | 0 <= i < |LINUX.constants|
      ensures LINUX.constants[i] in LINUX.table
      ensures LINUX.constants[i] in POSSIBLE_RESOURCES ==> LINUX.table[LINUX.constants[i]].IntC?
    {
    }
  }

  lemma ModuleConstantsNotPossible()
    ensures "FFI" !in POSSIBLE_RESOURCES && "POSSIBLE_RESOURCES" !in POSSIBLE_RESOURCES
  {
  }

  /** "NOFILE" and "RLIMIT_NOFILE" (and the Symbols, which stringify the
      same) resolve to the id of RLIMIT_NOFILE. */
  lemma NofileForms()
    ensures Resolve(LINUX.table, ByName("NOFILE")) == Ok(NOFILE)
    ensures Resolve(LINUX.table, ByName(PREFIX + "NOFILE")) == Ok(NOFILE)
  {
    assert "NOFILE"[0] != PREFIX[0];
    ResolveForms(LINUX.table, "NOFILE");
  }

  /** `get` on the stubbed kernel: both limits, or either one, whichever
      form names the resource; unknown resources and limit types raise
      ArgumentError. */
  lemma GetScenarios()
    ensures Get(LINUX, STUB, ById(NOFILE), Both) == Ok(Pair(Int(1024), Int(1048576)))
    ensures Get(LINUX, STUB, ById(NOFILE), Soft) == Ok(Single(Int(1024)))
    ensures Get(LINUX, STUB, ById(NOFILE), Hard) == Ok(Single(Int(1048576)))
    ensures Get(LINUX, STUB, ByName("NOFILE"), Soft) == Get(LINUX, STUB, ById(NOFILE), Soft)
    ensures Get(LINUX, STUB, ByName(PREFIX + "NOFILE"), Soft) == Get(LINUX, STUB, ById(NOFILE), Soft)
    ensures Get(LINUX, STUB, ById(NOFILE), Invalid) == Err(ArgumentError)
  {
    NofileForms();
  }

  lemma GetUnknownResource()
    ensures Get(LINUX, STUB, ByName("ohai!"), Both) == Err(ArgumentError)
  {
    assert "ohai!"[0] != PREFIX[0];
    ResolveForms(LINUX.table, "ohai!");
  }

  /** A wire hard limit of RLIM_INFINITY is reported as `:unlimited`. */
  lemma GetUnlimitedHard()
    ensures Get(LINUX, UNLIMITED_STUB, ById(NOFILE), Hard) == Ok(Single(Unlimited))
  {
  }

  /** `supports?` accepts every form of NOFILE ... */
  lemma SupportsNofile()
    ensures Supports(LINUX, STUB, ById(NOFILE)) == Ok(true)
    ensures Supports(LINUX, STUB, ByName("NOFILE")) == Ok(true)
    ensures Supports(LINUX, STUB, ByName(PREFIX + "NOFILE")) == Ok(true)
  {
    NofileForms();
  }

  /** ... and rejects an unknown name ... */
  lemma SupportsRejectsUnknown()
    ensures Supports(LINUX, STUB, ByName("OHAI")) == Ok(false)
  {
    assert "OHAI"[0] != PREFIX[0];
    ResolveForms(LINUX.table, "OHAI");
  }

  /** ... and the module itself, whose `to_s` names a non-Integer
      constant. */
  lemma SupportsRejectsModule()
    ensures Supports(LINUX, STUB, ByName("RLimit")) == Ok(false)
  {
    assert "RLimit"[2] != PREFIX[2];
    ResolveForms(LINUX.table, "RLimit");
  }

  /** `resources` has RLIMIT_NOFILE ... */
  lemma ResourcesHasNofile()
    ensures PREFIX + "NOFILE" in Resources(LINUX)
  {
    ResourcesExact(LINUX);
    assert "NOFILE" in POSSIBLE_RESOURCES;
  }

  /** ... and nothing the platform lacks. */
  lemma ResourcesLacksUnknown()
    ensures PREFIX + "WTFISTHIS" !in Resources(LINUX)
  {
    ResourcesExact(LINUX);
  }

  /** Both limits given: the write carries both new values. */
  method SetBothScenario() returns (r: Result<bool, Error>, writes: seq<Write>)
    ensures r == Ok(true) && writes == [Write(NOFILE, 4096, 65536)]
  {
    var k := new Kernel(STUB);
    r := Set(LINUX, k, ById(NOFILE), Int(4096), Int(65536));
    writes := k.writes;
  }

  /** Only the soft limit given, by name: the current hard limit is kept. */
  method SetSoftOnlyScenario() returns (r: Result<bool, Error>, writes: seq<Write>)
    ensures r == Ok(true) && writes == [Write(NOFILE, 4096, 1048576)]
  {
    var k := new Kernel(STUB);
    NofileForms();
    r := Set(LINUX, k, ByName(PREFIX + "NOFILE"), Int(4096), Nil);
    writes := k.writes;
  }

  /** Only the hard limit given: the current soft limit is kept. */
  method SetHardOnlyScenario() returns (r: Result<bool, Error>, writes: seq<Write>)
    ensures r == Ok(true) && writes == [Write(NOFILE, 1024, 65536)]
  {
    var k := new Kernel(STUB);
    r := Set(LINUX, k, ById(NOFILE), Nil, Int(65536));
    writes := k.writes;
  }

  /** `:unlimited` for both limits writes RLIM_INFINITY twice (raising the
      hard limit takes a privileged process). */
  method SetUnlimitedScenario() returns (r: Result<bool, Error>, limits: map<int, (RlimT, RlimT)>)
    ensures r == Ok(true) && limits == map[NOFILE := (RLIM_T_MAX, RLIM_T_MAX)]
  {
    var k := new Kernel(STUB.(privileged := true));
    r := Set(LINUX, k, ById(NOFILE), Unlimited, Unlimited);
    limits := k.limits;
  }

  /** A soft limit above the current or the given hard limit is refused
      before any write, naming the hard limit; a refused raise of the hard
      limit is PermissionDenied and changes nothing. */
  method SetRefusedScenarios() returns (aboveCurrent: Result<bool, Error>, aboveGiven: Result<bool, Error>,
                                        denied: Result<bool, Error>, writes: nat, limits: map<int, (RlimT, RlimT)>)
    ensures aboveCurrent == Err(HardLimitExceeded(1048576))
    ensures aboveGiven == Err(HardLimitExceeded(4096))
    ensures denied == Err(PermissionDenied)
    ensures writes == 1 && limits == STUB.limits
  {
    var k := new Kernel(STUB);
    aboveCurrent := Set(LINUX, k, ById(NOFILE), Int(1048577), Nil);
    aboveGiven := Set(LINUX, k, ById(NOFILE), Int(65536), Int(4096));
    denied := Set(LINUX, k, ById(NOFILE), Nil, Int(2000000));
    writes := |k.writes|;
    limits := k.limits;
  }

  /** An unknown resource and junk limit values raise ArgumentError. */
  lemma SetArgumentErrors()
    ensures Prepare(LINUX, STUB, ByName("ohai!"), Int(42), Nil) == Err(ArgumentError)
    ensures Prepare(LINUX, STUB, ById(NOFILE), Bad, Nil) == Err(ArgumentError)
    ensures Prepare(LINUX, STUB, ById(NOFILE), Int(42), Bad) == Err(ArgumentError)
  {
    assert "ohai!"[0] != PREFIX[0];
    ResolveForms(LINUX.table, "ohai!");
  }

  /** The Findings, on concrete inputs: `set(NOFILE, 4096)` under an
      unlimited hard limit, and `supports?(9999)`. */
  lemma FindingScenarios()
    ensures PrepareAsWritten(LINUX, UNLIMITED_STUB, ById(NOFILE), Int(4096), Nil) == Err(TypeError)
    ensures Prepare(LINUX, UNLIMITED_STUB, ById(NOFILE), Int(4096), Nil) == Ok(Write(NOFILE, 4096, RLIM_T_MAX))
    ensures SupportsAsWritten(LINUX, STUB, ById(9999)) == Err(NameError)
    ensures Supports(LINUX, STUB, ById(9999)) == Ok(false)
  {
    SetUnderUnlimitedHard(LINUX, UNLIMITED_STUB, ById(NOFILE), Int(4096));
    SupportsRejectedId(LINUX, STUB, 9999);
  }

  /** `setrlimit` stubbed to fail: EPERM raises PermissionDenied and any
      other errno RuntimeError; the kernel keeps its limits. */
  method SetStubbedErrnoScenarios() returns (denied: Result<bool, Error>, fault: Result<bool, Error>,
                                            limits: map<int, (RlimT, RlimT)>)
    ensures denied == Err(PermissionDenied) && fault == Err(RuntimeError)
    ensures limits == STUB.limits
  {
    var k := new Kernel(STUB.(setFault := Some(EPERM)));
    denied := Set(LINUX, k, ById(NOFILE), Nil, Int(2000000));
    k := new Kernel(STUB.(setFault := Some(EFAULT)));
    fault := Set(LINUX, k, ById(NOFILE), Int(4096), Nil);
    limits := k.limits;
  }

  /** `supports?(2**32)` and `supports?(:RLIM_INFINITY)` hand `getrlimit` an
      id wider than a C `int`. */
  lemma SupportsOutOfRangeScenarios()
    ensures Supports(LINUX, STUB, ById(0x1_0000_0000)) == Err(RangeError)
    ensures Supports(LINUX, STUB, ByName("RLIM_INFINITY")) == Err(RangeError)
  {
    LinuxWellFormed();
    ResolveInfinityName(LINUX);
    SupportsOutOfRangeId(LINUX, STUB, ByName("RLIM_INFINITY"));
  }

  /** `set(NOFILE, RLIM_INFINITY)`: TypeError as written; intended, the
      same as `set(NOFILE, :unlimited)`, which exceeds the hard limit. */
  lemma RawInfinitySoftScenario()
    ensures PrepareAsWritten(LINUX, STUB, ById(NOFILE), Int(RLIM_T_MAX), Nil) == Err(TypeError)
    ensures Prepare(LINUX, STUB, ById(NOFILE), Int(RLIM_T_MAX), Nil) == Err(HardLimitExceeded(1048576))
  {
    SetRawInfinitySoft(LINUX, STUB, ById(NOFILE), Nil);
  }

  /** `set(NOFILE, :unlimited, :unlimited)`: the code as written and the
      intended code compute the same write. */
  lemma UnlimitedAgreesScenario()
    ensures PrepareAsWritten(LINUX, STUB, ById(NOFILE), Unlimited, Unlimited) ==
            Prepare(LINUX, STUB, ById(NOFILE), Unlimited, Unlimited) ==
            Ok(Write(NOFILE, RLIM_T_MAX, RLIM_T_MAX))
  {
    PrepareAgreesAwayFromInfinity(LINUX, STUB, ById(NOFILE), Unlimited, Unlimited);
  }
}
