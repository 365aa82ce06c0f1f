/** The public operations `RLimit.get`, `RLimit.supports?` and `RLimit.set`,
    over the platform constants and the kernel. */
module RLimit {
  import opened Types
  import opened Codec
  import opened Platform
  import opened Resolver
  import opened Errno
  import opened Syscalls

  /** The `limit_type` argument of `get`: `nil`, `:soft`, `:hard`, or any
      other object. */
  datatype LimitType = Both | Soft | Hard | Invalid

  /** What `get` returns: a two-element array, or a single limit. */
  datatype Reading = Pair(soft: LimitArg, hard: LimitArg) | Single(limit: LimitArg)

  /** The order on reported limits in which `:unlimited` is above every
      Integer. */
  predicate LimitLe(a: LimitArg, b: LimitArg) {
    b.Unlimited? || (a.Int? && b.Int? && a.n <= b.n)
  }

  /** The first steps of `get`: resolve the resource, hand its id to
      `getrlimit` (FFI refuses an id outside the C `int` range with
      RangeError), and raise through `raise_errno` when the read fails. */
  function Fetch(p: Platform, state: State, res: Specifier): (r: Result<(RlimT, RlimT), Error>)
    ensures r.Ok? <==> Resolve(p.table, res).Ok? && IsCInt(Resolve(p.table, res).value) &&
                       GetRLimit(state, Resolve(p.table, res).value).Ok?
    ensures r.Ok? ==> r.value == state.limits[Resolve(p.table, res).value]
    ensures Resolve(p.table, res).Err? ==> r == Err(ArgumentError)
    ensures Resolve(p.table, res).Ok? && !IsCInt(Resolve(p.table, res).value) ==> r == Err(RangeError)
    ensures Resolve(p.table, res).Ok? && IsCInt(Resolve(p.table, res).value) &&
            GetRLimit(state, Resolve(p.table, res).value).Err? ==>
      r == Err(Classify(GetRLimit(state, Resolve(p.table, res).value).error))
  {
    var id :- Resolve(p.table, res);
    if !IsCInt(id) then Err(RangeError)
    else match GetRLimit(state, id)
      case Ok(pair) => Ok(pair)
      case Err(errno) => Err(Classify(errno))
  }

  /** `get(resource, limit_type)`.  A failed read is reported whatever the
      limit type; an unknown limit type is an ArgumentError only once the
      read has succeeded.  Both limits come back through `rlim_xlat`, so
      RLIM_INFINITY is reported as `:unlimited`. */
  function Get(p: Platform, state: State, res: Specifier, kind: LimitType): (r: Result<Reading, Error>)
    ensures r.Ok? <==> Fetch(p, state, res).Ok? && kind != Invalid
    ensures Fetch(p, state, res).Err? ==> r == Err(Fetch(p, state, res).error)
    ensures Fetch(p, state, res).Ok? && kind == Invalid ==> r == Err(ArgumentError)
    ensures r.Ok? ==> (r.value.Pair? <==> kind == Both)
    ensures r.Ok? && kind == Both ==>
      r.value == Pair(Decode(Fetch(p, state, res).value.0, p.inf), Decode(Fetch(p, state, res).value.1, p.inf))
    ensures r.Ok? && kind == Soft ==> r.value == Single(Decode(Fetch(p, state, res).value.0, p.inf))
    ensures r.Ok? && kind == Hard ==> r.value == Single(Decode(Fetch(p, state, res).value.1, p.inf))
  {
    var pair :- Fetch(p, state, res);
    match kind
    case Both => Ok(Pair(Decode(pair.0, p.inf), Decode(pair.1, p.inf)))
    case Soft => Ok(Single(Decode(pair.0, p.inf)))
    case Hard => Ok(Single(Decode(pair.1, p.inf)))
    case Invalid => Err(ArgumentError)
  }

  /** `get(r, :soft)` and `get(r, :hard)` are the two halves of `get(r)`,
      and an unknown limit type fails exactly when `get(r)` would not. */
  lemma GetHalves(p: Platform, state: State, res: Specifier)
    ensures Get(p, state, res, Soft) ==
      (match Get(p, state, res, Both) case Ok(Pair(s, _)) => Ok(Single(s)) case other => other)
    ensures Get(p, state, res, Hard) ==
      (match Get(p, state, res, Both) case Ok(Pair(_, h)) => Ok(Single(h)) case other => other)
    ensures Get(p, state, res, Invalid) ==
      (if Get(p, state, res, Both).Ok? then Err(ArgumentError) else Get(p, state, res, Both))
  {
  }

  /** On a kernel that keeps soft at or below hard, with RLIM_INFINITY the
      largest `rlim_t`, the pair `get` reports is ordered with `:unlimited`
      on top. */
  lemma GetOrdered(p: Platform, state: State, res: Specifier)
    requires Ordered(state) && p.inf == RLIM_T_MAX
    requires Get(p, state, res, Both).Ok?
    ensures LimitLe(Get(p, state, res, Both).value.soft, Get(p, state, res, Both).value.hard)
  {
  }

  /** `supports?(res)`: true when `get(res)` succeeds, false when it raises
      ArgumentError; every other exception propagates. */
  function Supports(p: Platform, state: State, res: Specifier): (r: Result<bool, Error>)
    ensures r == Ok(true) <==> Get(p, state, res, Both).Ok?
    ensures r == Ok(false) <==> Get(p, state, res, Both) == Err(ArgumentError)
    ensures r.Err? ==> Get(p, state, res, Both) == Err(r.error) && r.error != ArgumentError
  {
    match Get(p, state, res, Both)
    case Ok(_) => Ok(true)
    case Err(ArgumentError) => Ok(false)
    case Err(e) => Err(e)
  }

  /** A name that is not a constant is reported unsupported whatever the
      kernel holds, and never raises. */
  lemma SupportsUnknownName(p: Platform, state: State, name: string)
    requires WellFormed(p) && StripPrefix(name) !in p.table
    ensures Supports(p, state, ByName(name)) == Ok(false)
  {
  }

  /** The value a limit argument of `set` leaves on the wire: `nil` keeps
      the current value, anything else replaces it with what it denotes. */
  function Effective(arg: LimitArg, current: RlimT, inf: RlimT): (w: RlimT)
    requires !arg.Bad?
    ensures arg.Nil? ==> w == current
    ensures arg.Unlimited? ==> w == inf
    ensures arg.Int? && 0 <= arg.n < RLIM_T_MODULUS ==> w == arg.n
    ensures arg.Int? ==> w == arg.n % RLIM_T_MODULUS
  {
    if arg.Nil? then current else Store(arg, inf)
  }

  /** Everything `set` does before it calls `setrlimit`: the write it will
      issue, or the exception it raises first.  Errors come in the order of
      the code: the resource, the soft limit, the hard limit, the read of
      the current pair, and last the check that soft does not exceed hard,
      made on wire values, so that `:unlimited` is above every Integer. */
  function Prepare(p: Platform, state: State, res: Specifier, soft: LimitArg, hard: LimitArg): (r: Result<Write, Error>)
    ensures r.Ok? ==> r.value.soft <= r.value.hard
    ensures Resolve(p.table, res).Err? ==> r == Err(ArgumentError)
    ensures Resolve(p.table, res).Ok? && (soft.Bad? || hard.Bad?) ==> r == Err(ArgumentError)
    ensures Resolve(p.table, res).Ok? && !soft.Bad? && !hard.Bad? ==>
      var id := Resolve(p.table, res).value;
      if !IsCInt(id) then r == Err(RangeError) else
      match GetRLimit(state, id)
      case Err(errno) => r == Err(Classify(errno))
      case Ok(pair) =>
        var s, h := Effective(soft, pair.0, p.inf), Effective(hard, pair.1, p.inf);
        r == if s <= h then Ok(Write(id, s, h)) else Err(HardLimitExceeded(h))
  {
    var id :- Resolve(p.table, res);
    var softArg :- Xlat(soft, p.inf);
    var hardArg :- Xlat(hard, p.inf);
    var current :- Get(p, state, ById(id), Both);
    StoreDecode(state.limits[id].0, p.inf);
    StoreDecode(state.limits[id].1, p.inf);
    var cur := if softArg.Nil? then Store(current.soft, p.inf) else Store(softArg, p.inf);
    var max := if hardArg.Nil? then Store(current.hard, p.inf) else Store(hardArg, p.inf);
    if cur > max then Err(HardLimitExceeded(max)) else Ok(Write(id, cur, max))
  }

  /** `set(resource, soft_limit, hard_limit)`: reads the current pair,
      overlays the arguments that are not `nil`, and writes the result
      unless the soft limit would exceed the hard one.  It returns true
      exactly when `setrlimit` accepts the write; a refused write raises
      through `raise_errno`.  Only the resolved resource can change. */
  method Set(p: Platform, k: Kernel, res: Specifier, soft: LimitArg, hard: LimitArg) returns (r: Result<bool, Error>)
    modifies k
    ensures match Prepare(p, old(k.Snapshot()), res, soft, hard)
      case Err(e) => r == Err(e) && k.Snapshot() == old(k.Snapshot()) && k.writes == old(k.writes)
      case Ok(w) =>
        && k.writes == old(k.writes) + [w]
        && k.Snapshot() == AfterSetRLimit(old(k.Snapshot()), w)
        && r == match SetRLimitErrno(old(k.Snapshot()), w)
                case None => Ok(true)
                case Some(errno) => Err(Classify(errno))
  {
    var id :- Resolve(p.table, res);
    var softArg :- Xlat(soft, p.inf);
    var hardArg :- Xlat(hard, p.inf);
    var current :- Get(p, k.Snapshot(), ById(id), Both);
    var cur, max := Store(current.soft, p.inf), Store(current.hard, p.inf);
    if !softArg.Nil? {
      cur := Store(softArg, p.inf);
    }
    if !hardArg.Nil? {
      max := Store(hardArg, p.inf);
    }
    assert Prepare(p, k.Snapshot(), res, soft, hard) ==
      if cur > max then Err(HardLimitExceeded(max)) else Ok(Write(id, cur, max));
    if cur > max {
      return Err(HardLimitExceeded(max));
    }
    var errno := k.SetRLimit(Write(id, cur, max));
    if errno.Some? {
      return Err(Classify(errno.value));
    }
    return Ok(true);
  }

  /** `set` never hands `setrlimit` a soft limit above the hard one, so the
      kernel's own EINVAL for that case cannot arise, and every write it
      makes keeps an ordered kernel ordered. */
  lemma SetKeepsOrdered(p: Platform, state: State, res: Specifier, soft: LimitArg, hard: LimitArg)
    requires Ordered(state) && Prepare(p, state, res, soft, hard).Ok?
    ensures Ordered(AfterSetRLimit(state, Prepare(p, state, res, soft, hard).value))
    ensures var w := Prepare(p, state, res, soft, hard).value;
      SetRLimitErrno(state, w) == Some(Errno.EINVAL) ==> state.setFault == Some(Errno.EINVAL) || w.id !in state.limits
  {
  }

  /** With RLIM_INFINITY the largest `rlim_t`, raising the hard limit to
      `:unlimited` can never be refused as HardLimitExceeded, and an
      unlimited soft limit is refused under any finite hard limit. */
  lemma UnlimitedIsMaximal(p: Platform, state: State, res: Specifier, soft: LimitArg, hard: LimitArg)
    requires p.inf == RLIM_T_MAX
    ensures !Prepare(p, state, res, soft, Unlimited).Err? ||
            !Prepare(p, state, res, soft, Unlimited).error.HardLimitExceeded?
    ensures Fetch(p, state, res).Ok? && hard.Int? && 0 <= hard.n < RLIM_T_MAX ==>
            Prepare(p, state, res, Unlimited, hard) == Err(HardLimitExceeded(hard.n))
  {
  }

  // The code as written, where it departs from what it evidently intends.

  /** `get` as written: a failed read goes through `raise_errno` as
      written, which turns EINVAL into NameError. */
  function GetAsWritten(p: Platform, state: State, res: Specifier, kind: LimitType): (r: Result<Reading, Error>)
    ensures r.Err? && r.error == NameError <==> ReadIsEinval(p, state, res)
    ensures !ReadIsEinval(p, state, res) ==> r == Get(p, state, res, kind)
  {
    var id :- Resolve(p.table, res);
    if !IsCInt(id) then Err(RangeError)
    else match GetRLimit(state, id)
      case Err(errno) => Err(ClassifyAsWritten(errno))
      case Ok(_) => Get(p, state, res, kind)
  }

  /** The resource resolves to an id in range and `getrlimit` answers EINVAL
      for it. */
  predicate ReadIsEinval(p: Platform, state: State, res: Specifier) {
    Resolve(p.table, res).Ok? && IsCInt(Resolve(p.table, res).value) &&
    GetRLimit(state, Resolve(p.table, res).value) == Err(EINVAL)
  }

  /** `supports?` as written: the NameError is not an ArgumentError, so it
      escapes the `rescue`. */
  function SupportsAsWritten(p: Platform, state: State, res: Specifier): (r: Result<bool, Error>)
    ensures r == Ok(true) <==> GetAsWritten(p, state, res, Both).Ok?
    ensures r == Ok(false) <==> GetAsWritten(p, state, res, Both) == Err(ArgumentError)
    ensures r.Err? ==> GetAsWritten(p, state, res, Both) == Err(r.error) && r.error != ArgumentError
  {
    match GetAsWritten(p, state, res, Both)
    case Ok(_) => Ok(true)
    case Err(ArgumentError) => Ok(false)
    case Err(e) => Err(e)
  }

  /** An Integer id the kernel rejects (Linux answers EINVAL for an id past
      its last resource) is reported unsupported by the intended code, but
      the code as written raises NameError out of `supports?`. */
  lemma SupportsRejectedId(p: Platform, state: State, id: int)
    requires state.getFault.None? && IsCInt(id) && id !in state.limits
    ensures Supports(p, state, ById(id)) == Ok(false)
    ensures SupportsAsWritten(p, state, ById(id)) == Err(NameError)
  {
  }

  /** The part of `set` before `setrlimit` as written.  The unreachable-
      looking range check of lines 132-138 compares `:unlimited < 0` when
      the hard limit was given as the raw RLIM_INFINITY Integer, which
      raises ArgumentError; line 141 stores the values `get` returns, and
      storing `:unlimited` into an `rlim_t` field raises TypeError. */
  function PrepareAsWritten(p: Platform, state: State, res: Specifier, soft: LimitArg, hard: LimitArg): (r: Result<Write, Error>)
    ensures r.Ok? ==> r.value.soft <= r.value.hard
    ensures r.Ok? ==>
      (Fetch(p, state, res).Ok? && Fetch(p, state, res).value.0 != p.inf && Fetch(p, state, res).value.1 != p.inf)
  {
    var id :- Resolve(p.table, res);
    var softArg :- Xlat(soft, p.inf);
    var hardArg :- Xlat(hard, p.inf);
    if hardArg.Unlimited? then Err(ArgumentError) else
    var current :- GetAsWritten(p, state, ById(id), Both);
    var cur0 :- StoreAsWritten(current.soft);
    var max0 :- StoreAsWritten(current.hard);
    var cur :- if softArg.Nil? then Ok(cur0) else StoreAsWritten(softArg);
    // hardArg is nil or an Integer here, and storing an Integer succeeds
    var max := if hardArg.Nil? then max0 else StoreAsWritten(hardArg).value;
    if cur > max then Err(HardLimitExceeded(max)) else Ok(Write(id, cur, max))
  }

  /** Away from RLIM_INFINITY on the wire and as a raw Integer argument, and
      when the kernel does not answer EINVAL, the code as written and the
      intended code agree; `:unlimited` arguments are covered, since
      `rlim_xlat` turns them into the Integer RLIM_INFINITY, which stores. */
  lemma PrepareAgreesAwayFromInfinity(p: Platform, state: State, res: Specifier, soft: LimitArg, hard: LimitArg)
    requires soft != Int(p.inf) && hard != Int(p.inf)
    requires forall id :: id in state.limits ==> state.limits[id].0 != p.inf && state.limits[id].1 != p.inf
    requires !ReadIsEinval(p, state, res)
    ensures PrepareAsWritten(p, state, res, soft, hard) == Prepare(p, state, res, soft, hard)
  {
    if Resolve(p.table, res).Ok? && !soft.Bad? && !hard.Bad? {
      var id := Resolve(p.table, res).value;
      assert !Xlat(hard, p.inf).value.Unlimited?;
      assert GetAsWritten(p, state, ById(id), Both) == Get(p, state, ById(id), Both);
      if IsCInt(id) && GetRLimit(state, id).Ok? {
        var pair := state.limits[id];
        assert Get(p, state, ById(id), Both) == Ok(Pair(Int(pair.0), Int(pair.1)));
      }
    }
  }

  /** When the current hard limit is RLIM_INFINITY, `set` as written fails
      with TypeError whatever it is asked, while the intended `set` writes
      the overlaid pair, keeping the unlimited hard limit when the hard
      argument is `nil`. */
  lemma SetUnderUnlimitedHard(p: Platform, state: State, res: Specifier, soft: LimitArg)
    requires Fetch(p, state, res).Ok? && Fetch(p, state, res).value.1 == p.inf
    requires soft.Nil? || soft.Unlimited? || (soft.Int? && 0 <= soft.n < RLIM_T_MODULUS)
    ensures PrepareAsWritten(p, state, res, soft, Nil) == Err(TypeError)
    ensures var id := Resolve(p.table, res).value;
      var cur := Effective(soft, state.limits[id].0, p.inf);
      cur <= p.inf ==> Prepare(p, state, res, soft, Nil) == Ok(Write(id, cur, p.inf))
  {
  }

  /** A soft limit given as the raw RLIM_INFINITY Integer is translated to
      `:unlimited` before it is stored into an `rlim_t` field, so `set` as
      written raises TypeError, while the intended `set` treats it exactly
      as `:unlimited`. */
  lemma SetRawInfinitySoft(p: Platform, state: State, res: Specifier, hard: LimitArg)
    requires Fetch(p, state, res).Ok? && !hard.Bad? && hard != Int(p.inf)
    ensures PrepareAsWritten(p, state, res, Int(p.inf), hard) == Err(TypeError)
    ensures Prepare(p, state, res, Int(p.inf), hard) == Prepare(p, state, res, Unlimited, hard)
  {
  }

  /** A resource whose id does not fit the C `int` parameter of
      `getrlimit` (an Integer such as 2**32, or the name RLIM_INFINITY) makes
      FFI raise RangeError, which `supports?` does not rescue. */
  lemma SupportsOutOfRangeId(p: Platform, state: State, res: Specifier)
    requires Resolve(p.table, res).Ok? && !IsCInt(Resolve(p.table, res).value)
    ensures Get(p, state, res, Both) == Err(RangeError)
    ensures Supports(p, state, res) == Err(RangeError)
    ensures SupportsAsWritten(p, state, res) == Err(RangeError)
  {
  }
}
