/** `RLimit.resources`: the RLIMIT_* names the platform defines, out of the
    fixed list of every resource the library knows how to ask about. */
module ResourceList {
  import opened Platform
  import Resolver

  /** Every resource any supported system is known to define. */
  const POSSIBLE_RESOURCES: seq<string> := [
    "AS", "CORE", "CPU", "DATA", "FSIZE", "LOCKS", "MEMLOCK", "MSGQUEUE",
    "NICE", "NOFILE", "NPROC", "RSS", "RTPRIO", "RTTIME", "SBSIZE",
    "SIGPENDING", "STACK", "SWAP", "NPTS"
  ]

  /** Ruby's `a & b` with the elements of `b` already drawn off removed from
      `keep`: the elements of `a` that are in `keep`, each once, at its first
      occurrence, in the order of `a`. */
  function Intersect(a: seq<string>, keep: set<string>): (r: seq<string>)
    ensures forall x :: x in r <==> x in a && x in keep
    ensures forall i, j :: 0 <= i < j < |r| ==> r[i] != r[j]
    ensures |r| <= |a|
  {
    if a == [] then []
    else if a[0] in keep then [a[0]] + Intersect(a[1..], keep - {a[0]})
    else Intersect(a[1..], keep)
  }

  /** Prefixes every name with `RLIMIT_`. */
  function Prefixed(names: seq<string>): (r: seq<string>)
    ensures |r| == |names|
    ensures forall i :: 0 <= i < |r| ==> r[i] == Resolver.PREFIX + names[i]
  {
    if names == [] then [] else [Resolver.PREFIX + names[0]] + Prefixed(names[1..])
  }

  /** The names of `constants` that are in `possible`, in the order of
      `constants`, each with `RLIMIT_` put back: never more names than
      constants, and each one prefixed. */
  function Among(constants: seq<string>, possible: seq<string>): (r: seq<string>)
    ensures |r| <= |constants|
    ensures forall i :: 0 <= i < |r| ==> Resolver.PREFIX <= r[i]
  {
    var r := Prefixed(Intersect(constants, set n | n in possible));
    assert forall i :: 0 <= i < |r| ==> r[i][..|Resolver.PREFIX|] == Resolver.PREFIX;
    r
  }

  /** `resources`, for the module's own constants: at most one name per
      constant, each prefixed with `RLIMIT_`. */
  function Resources(p: Platform): (r: seq<string>)
    ensures |r| <= |p.constants|
    ensures forall i :: 0 <= i < |r| ==> Resolver.PREFIX <= r[i]
  {
    Among(p.constants, POSSIBLE_RESOURCES)
  }

  lemma PrefixInjective(a: string, b: string)
    requires Resolver.PREFIX + a == Resolver.PREFIX + b
    ensures a == b
  {
    assert a == (Resolver.PREFIX + a)[|Resolver.PREFIX|..];
    assert b == (Resolver.PREFIX + b)[|Resolver.PREFIX|..];
  }

  /** Every name `resources` reports is `RLIMIT_` followed by a possible
      resource that the module defines; every such resource is reported;
      and none is reported twice. */
  lemma AmongExact(constants: seq<string>, possible: seq<string>)
    ensures forall i :: 0 <= i < |Among(constants, possible)| ==>
      exists n :: n in constants && n in possible && Among(constants, possible)[i] == Resolver.PREFIX + n
    ensures forall n :: n in constants && n in possible ==> Resolver.PREFIX + n in Among(constants, possible)
    ensures forall i, j :: 0 <= i < j < |Among(constants, possible)| ==>
      Among(constants, possible)[i] != Among(constants, possible)[j]
  {
    var names := Intersect(constants, set n | n in possible);
    var r := Among(constants, possible);
    assert r == Prefixed(names);
    forall i | 0 <= i < |names|
      ensures names[i] in constants && names[i] in possible
    {
      assert names[i] in names;
    }
    forall n | n in constants && n in possible
      ensures Resolver.PREFIX + n in r
    {
      assert n in names;
      var i :| 0 <= i < |names| && names[i] == n;
      assert r[i] == Resolver.PREFIX + n;
    }
    forall i, j | 0 <= i < j < |names|
      ensures r[i] != r[j]
    {
      if r[i] == r[j] {
        PrefixInjective(names[i], names[j]);
      }
    }
  }

  lemma ResourcesExact(p: Platform)
    ensures forall i :: 0 <= i < |Resources(p)| ==>
      exists n :: n in p.constants && n in POSSIBLE_RESOURCES && Resources(p)[i] == Resolver.PREFIX + n
    ensures forall n :: n in p.constants && n in POSSIBLE_RESOURCES ==> Resolver.PREFIX + n in Resources(p)
    ensures forall i, j :: 0 <= i < j < |Resources(p)| ==> Resources(p)[i] != Resources(p)[j]
  {
    assert Resources(p) == Among(p.constants, POSSIBLE_RESOURCES);
    AmongExact(p.constants, POSSIBLE_RESOURCES);
  }

  /** No possible resource name spans a line ... */
  lemma PossibleResourcesOneLine()
    ensures forall n :: n in POSSIBLE_RESOURCES ==> '\n' !in n
  {
    forall i | 0 <= i < |POSSIBLE_RESOURCES|
      ensures '\n' !in POSSIBLE_RESOURCES[i]
    {
      var n := POSSIBLE_RESOURCES[i];
      assert forall j :: 0 <= j < |n| ==> n[j] != '\n';
    }
  }

  /** ... or already carries the `RLIMIT_` prefix. */
  lemma PossibleResourcesUnprefixed()
    ensures forall n :: n in POSSIBLE_RESOURCES ==> !(Resolver.PREFIX <= n)
  {
    forall n | n in POSSIBLE_RESOURCES
      ensures !(Resolver.PREFIX <= n)
    {
      assert 2 <= |n| && (n[0] != 'R' || n[1] != 'L');
    }
  }

  /** What loading the module guarantees: every name `constants` lists is
      found by `const_get`, and every possible resource the constant
      generator defined holds an Integer. */
  predicate ResourcesDefined(p: Platform) {
    && (forall c :: c in p.constants ==> c in p.table)
    && (forall c :: c in p.constants && c in POSSIBLE_RESOURCES ==> p.table[c].IntC?)
  }

  /** Every name `resources` reports resolves through `res_xlat`, and to the
      Integer the constant of the bare resource name holds: the list and the
      resolver agree. */
  lemma ResourcesResolve(p: Platform)
    requires ResourcesDefined(p)
    ensures forall s :: s in Resources(p) ==>
      && Resolver.PREFIX <= s
      && Resolver.Resolve(p.table, Resolver.ByName(s)) == Resolver.Lookup(p.table, s[|Resolver.PREFIX|..])
      && Resolver.Resolve(p.table, Resolver.ByName(s)).Ok?
      && p.table[s[|Resolver.PREFIX|..]] == IntC(Resolver.Resolve(p.table, Resolver.ByName(s)).value)
  {
    ResourcesExact(p);
    PossibleResourcesOneLine();
    PossibleResourcesUnprefixed();
    forall s | s in Resources(p)
      ensures Resolver.Resolve(p.table, Resolver.ByName(s)) == Resolver.Lookup(p.table, s[|Resolver.PREFIX|..])
      ensures Resolver.Resolve(p.table, Resolver.ByName(s)).Ok?
      ensures p.table[s[|Resolver.PREFIX|..]] == IntC(Resolver.Resolve(p.table, Resolver.ByName(s)).value)
    {
      var i :| 0 <= i < |Resources(p)| && Resources(p)[i] == s;
      var n :| n in p.constants && n in POSSIBLE_RESOURCES && s == Resolver.PREFIX + n;
      Resolver.ResolveForms(p.table, n);
      assert s[|Resolver.PREFIX|..] == n;
    }
  }

  /** A constant that is not itself `RLIMIT_`-prefixed and is no possible
      resource is reported neither bare nor prefixed. */
  lemma NotReported(p: Platform, c: string)
    requires !(Resolver.PREFIX <= c) && c !in POSSIBLE_RESOURCES
    ensures c !in Resources(p) && Resolver.PREFIX + c !in Resources(p)
  {
    ResourcesExact(p);
    if Resolver.PREFIX + c in Resources(p) {
      var i :| 0 <= i < |Resources(p)| && Resources(p)[i] == Resolver.PREFIX + c;
      var n :| n in p.constants && n in POSSIBLE_RESOURCES && Resources(p)[i] == Resolver.PREFIX + n;
      PrefixInjective(n, c);
    }
  }

  /** `resources` never reports RLIM_INFINITY or the exception classes, with
      or without the prefix. */
  lemma ResourcesExcludeOtherConstants(p: Platform)
    ensures "RLIM_INFINITY" !in Resources(p) && Resolver.PREFIX + "RLIM_INFINITY" !in Resources(p)
    ensures "PermissionDenied" !in Resources(p) && Resolver.PREFIX + "PermissionDenied" !in Resources(p)
    ensures "HardLimitExceeded" !in Resources(p) && Resolver.PREFIX + "HardLimitExceeded" !in Resources(p)
  {
    InfinityNotPossible();
    NotReported(p, "RLIM_INFINITY");
    ExceptionsNotPossible();
    NotReported(p, "PermissionDenied");
    NotReported(p, "HardLimitExceeded");
  }

  lemma InfinityNotPossible()
    ensures !(Resolver.PREFIX <= "RLIM_INFINITY") && "RLIM_INFINITY" !in POSSIBLE_RESOURCES
  {
    assert "RLIM_INFINITY"[4] != Resolver.PREFIX[4];
  }

  lemma ExceptionsNotPossible()
    ensures !(Resolver.PREFIX <= "PermissionDenied") && "PermissionDenied" !in POSSIBLE_RESOURCES
    ensures !(Resolver.PREFIX <= "HardLimitExceeded") && "HardLimitExceeded" !in POSSIBLE_RESOURCES
  {
    assert "PermissionDenied"[0] != Resolver.PREFIX[0];
    assert "HardLimitExceeded"[0] != Resolver.PREFIX[0];
  }
}
