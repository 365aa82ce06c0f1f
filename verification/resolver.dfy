/** The resource resolver, `res_xlat`: turns a resource specifier into the
    integer id handed to `getrlimit`/`setrlimit`. */
module Resolver {
  import opened Types
  import opened Platform

  /** An Integer specifier, or any other object, which the resolver only
      sees through its `to_s`: the String "NOFILE" and the Symbol :NOFILE
      are both `ByName("NOFILE")`. */
  datatype Specifier = ById(id: int) | ByName(name: string)

  const PREFIX: string := "RLIMIT_"

  /** `gsub(/^RLIMIT_/, '')`.  In a Ruby regular expression `^` matches at
      the start of every line, so the prefix is removed at the start of the
      string and after each line break; `atLineStart` says whether `s`
      begins a line. */
  function Gsub(s: string, atLineStart: bool): (r: string)
    ensures |r| <= |s|
    decreases |s|
  {
    if atLineStart && PREFIX <= s then Gsub(s[|PREFIX|..], false)
    else if s == [] then []
    else [s[0]] + Gsub(s[1..], s[0] == '\n')
  }

  /** The substitution `res_xlat` applies to a name.  On a one-line name
      it strips one leading `RLIMIT_` and nothing else. */
  function StripPrefix(s: string): (r: string)
    ensures |r| <= |s|
    ensures '\n' !in s ==> r == if PREFIX <= s then s[|PREFIX|..] else s
  {
    if '\n' in s then Gsub(s, true)
    else if PREFIX <= s then
      assert '\n' !in s[|PREFIX|..] by { assert forall c :: c in s[|PREFIX|..] ==> c in s; }
      GsubOneLine(s[|PREFIX|..]);
      Gsub(s, true)
    else
      GsubOneLine(s);
      assert s != [] ==> Gsub(s, true) == [s[0]] + Gsub(s[1..], s[0] == '\n');
      Gsub(s, true)
  }

  /** Away from a line start, a one-line string is left as it is. */
  lemma {:induction false} GsubOneLine(s: string)
    requires '\n' !in s
    ensures Gsub(s, false) == s
    decreases |s|
  {
    if s != [] {
      assert '\n' !in s[1..] by { assert forall c :: c in s[1..] ==> c in s; }
      GsubOneLine(s[1..]);
    }
  }

  /** Stripping never removes a line break. */
  lemma {:induction false} GsubKeepsLineBreak(s: string, atLineStart: bool)
    requires '\n' in s
    ensures '\n' in Gsub(s, atLineStart)
    decreases |s|
  {
    if atLineStart && PREFIX <= s {
      var i :| 0 <= i < |s| && s[i] == '\n';
      assert i >= |PREFIX| by { assert s[..|PREFIX|] == PREFIX; }
      assert s[|PREFIX|..][i - |PREFIX|] == '\n';
      GsubKeepsLineBreak(s[|PREFIX|..], false);
    } else if s[0] != '\n' {
      var i :| 0 <= i < |s| && s[i] == '\n';
      assert s[1..][i - 1] == '\n';
      GsubKeepsLineBreak(s[1..], false);
      assert Gsub(s, atLineStart) == [s[0]] + Gsub(s[1..], false);
    } else {
      assert Gsub(s, atLineStart)[0] == '\n';
    }
  }

  /** `const_defined?` followed by `const_get`, and the Integer test of
      `res_xlat`: a name that is no constant, and a constant that is not an
      Integer, raise ArgumentError. */
  function Lookup(table: map<string, Const>, name: string): (r: Result<int, Error>)
    ensures r.Ok? <==> name in table && table[name].IntC?
    ensures r.Ok? ==> table[name] == IntC(r.value)
    ensures r.Err? ==> r.error == ArgumentError
  {
    if name in table && table[name].IntC? then Ok(table[name].n) else Err(ArgumentError)
  }

  /** `res_xlat`: an Integer passes through unchanged; any other specifier
      is stringified, stripped of a leading `RLIMIT_`, and looked up among
      the constants; a missing name, a name that is not a constant name,
      and a constant that is not an Integer all raise ArgumentError. */
  function Resolve(table: map<string, Const>, spec: Specifier): (r: Result<int, Error>)
    ensures spec.ById? ==> r == Ok(spec.id)
    ensures spec.ByName? ==>
      (r.Ok? <==> StripPrefix(spec.name) in table && table[StripPrefix(spec.name)].IntC?)
    ensures r.Ok? && spec.ByName? ==> table[StripPrefix(spec.name)] == IntC(r.value)
    ensures r.Err? ==> r.error == ArgumentError
  {
    match spec
    case ById(id) => Ok(id)
    case ByName(name) => Lookup(table, StripPrefix(name))
  }

  /** "X", "RLIMIT_X", :X and :RLIMIT_X all resolve alike, to what the
      constant X holds. */
  lemma ResolveForms(table: map<string, Const>, name: string)
    requires '\n' !in name && !(PREFIX <= name)
    ensures Resolve(table, ByName(name)) == Lookup(table, name)
    ensures Resolve(table, ByName(PREFIX + name)) == Lookup(table, name)
  {
    assert '\n' !in PREFIX + name;
    assert PREFIX <= PREFIX + name;
    assert (PREFIX + name)[|PREFIX|..] == name;
  }

  /** A name spanning several lines is never a constant name, so it never
      resolves. */
  lemma ResolveMultiline(p: Platform, name: string)
    requires WellFormed(p) && '\n' in name
    ensures Resolve(p.table, ByName(name)) == Err(ArgumentError)
  {
    GsubKeepsLineBreak(name, true);
  }

  /** RLIM_INFINITY is an Integer constant, so, as written, it resolves (with
      or without the prefix) to its own value as a resource id. */
  lemma ResolveInfinityName(p: Platform)
    requires WellFormed(p)
    ensures Resolve(p.table, ByName("RLIM_INFINITY")) == Ok(p.inf)
    ensures Resolve(p.table, ByName(PREFIX + "RLIM_INFINITY")) == Ok(p.inf)
  {
    var name := "RLIM_INFINITY";
    assert !(PREFIX <= name) by { assert name[4] != PREFIX[4]; }
    assert '\n' !in name;
    ResolveForms(p.table, name);
    assert Lookup(p.table, name) == Ok(p.inf);
  }

  /** The exception classes are constants of the module but not Integers,
      so naming them raises ArgumentError. */
  lemma ResolveExceptionNames(p: Platform)
    requires WellFormed(p)
    ensures Resolve(p.table, ByName("PermissionDenied")) == Err(ArgumentError)
    ensures Resolve(p.table, ByName("HardLimitExceeded")) == Err(ArgumentError)
  {
    var pd, hle := "PermissionDenied", "HardLimitExceeded";
    assert pd[0] != PREFIX[0] && hle[0] != PREFIX[0];
    ResolveForms(p.table, pd);
    ResolveForms(p.table, hle);
  }
}
