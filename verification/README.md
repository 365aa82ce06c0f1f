# rlimit — a verified model of the `RLimit` Ruby module

The `RLimit` module reads and changes a process's resource limits through
`getrlimit`/`setrlimit`. Each resource has a soft limit and a hard limit.
This project models the module's Ruby logic around those two system calls:

- **The limit codec (`rlim_xlat`).** It translates between the wire sentinel
  `RLIM_INFINITY` and the logical marker `:unlimited`. It also rejects limit
  values that are neither `nil`, `:unlimited` nor an Integer. What storing a
  value into an unsigned 64-bit `rlim_t` field keeps is modelled too.
- **The resource resolver (`res_xlat`).** It turns an Integer, a String or a
  Symbol into a resource id. Names are looked up among the module's
  constants after `gsub(/^RLIMIT_/, '')`. Ruby's `^` matches at every line
  start, and the model keeps that.
- **The errno classifier (`raise_errno`).**
- **The public operations.**
  - `get(resource, limit_type)` and `supports?(resource)` are functions
    over a snapshot of the kernel.
  - `set(resource, soft, hard)` is a method on a mutable kernel object. It
    is proved against `Prepare`, a function that computes the write `set`
    issues or the exception it raises first.
- **`resources` and `POSSIBLE_RESOURCES`.**

The kernel is an abstract state: a map from resource id to a pair of
`rlim_t`, a privilege flag, and one optional injected errno for each of the
two calls. It follows the `getrlimit()` rules of POSIX.1-2017:

- an unknown id is EINVAL;
- a soft limit above the hard limit is EINVAL;
- raising the hard limit without privilege is EPERM;
- an injected errno stands for every other failure of that call, such as
  EFAULT or an errno a stub returns.

Both calls take the resource id as a C `int`. FFI raises RangeError for an
Integer outside the 32-bit range before either call is made.

Errno numbers are Linux's (EPERM 1, EFAULT 14, EINVAL 22).

The module's constants come from `FFI::ConstGenerator` at load time. Here
they are a parameter: a `Platform` value holding the constant table, the
module's own constant list and RLIM_INFINITY. `Scenarios` fixes a
Linux-like platform, with RLIMIT_NOFILE = 7 and RLIM_INFINITY = 2^64 - 1,
and states the library's own examples against it.

Three defects of the code are recorded under Findings. In each case the
main model follows what the code evidently intends. A separate
`…AsWritten` member models the code as written, and lemmas relate the two.
Two more defects are described under Left out: the `:unlimited < 0`
comparison of lines 132-138, and the undefined `soft_limit` at line 175.

Where the library's prose and its code disagree, the model follows the
code:

- The documentation says limits must be integers below 2^32. In the code,
  the range tests in `rlim_xlat` and `set` come after `is_a?(Integer)` in
  an `unless … or …`, so any Integer is accepted. The model accepts every
  Integer and stores it modulo 2^64.
- The documentation says an invalid limit type is an ArgumentError. In the
  code, that test comes after the `getrlimit` call, so a failing read is
  reported first. `Get` keeps that order.

Modules:

- `Types`
- `Codec`
- `Platform`
- `Resolver`
- `Errno`
- `Syscalls`
- `RLimit`
- `ResourceList`
- `Scenarios`

## Model

| member | source | states |
|---|---|---|
| Codec.Xlat | lib/rlimit.rb:168-185 | Fails, with ArgumentError, exactly on a non-Integer non-`nil` non-`:unlimited` argument. Yields `:unlimited` exactly for RLIM_INFINITY, and RLIM_INFINITY exactly for `:unlimited`. Passes every other value through unchanged. |
| Codec.XlatInvolution | lib/rlimit.rb:163-167 | The translation is its own inverse: applied twice to any accepted value, it gives that value back. |
| Codec.Decode | lib/rlimit.rb:86-88 | A wire value read from the kernel is reported as `:unlimited` exactly when it is RLIM_INFINITY, and otherwise as itself. |
| Codec.Store | lib/rlimit.rb:143-149 | Storing into an `rlim_t` field maps `:unlimited` to RLIM_INFINITY. It keeps an in-range Integer unchanged and any Integer congruent modulo 2^64. |
| Codec.StoreDecode | lib/rlimit.rb:141 | Storing what `get` reports gives back the wire value it was read from (round trip). |
| Codec.StoreXlat | lib/rlimit.rb:129-130 | Passing an argument through `rlim_xlat` before storing it changes nothing on the wire. |
| Codec.StoreAsWritten | lib/rlimit.rb:141 | As written, assigning `:unlimited` to an `rlim_t` field fails with TypeError, and only then. An Integer is stored modulo 2^64. |
| Resolver.Gsub | lib/rlimit.rb:196 | Removing `RLIMIT_` at line starts never lengthens the name. |
| Resolver.GsubOneLine | lib/rlimit.rb:196 | Away from a line start, a one-line name is left unchanged (proof by induction). |
| Resolver.StripPrefix | lib/rlimit.rb:196 | The substitution `res_xlat` applies never lengthens a name. On a one-line name it removes exactly one leading `RLIMIT_` if present, and nothing else. |
| Resolver.GsubKeepsLineBreak | lib/rlimit.rb:196 | The substitution never removes a line break (proof by induction). |
| Resolver.Lookup | lib/rlimit.rb:197-210 | A name resolves exactly when it is a constant holding an Integer, and then to that Integer. Otherwise it raises ArgumentError. |
| Resolver.Resolve | lib/rlimit.rb:192-213 | An Integer specifier resolves to itself. A name resolves exactly when its stripped form is a constant holding an Integer, and then to that Integer. Every failure is ArgumentError. |
| Resolver.ResolveForms | lib/rlimit.rb:192-213 | `"X"`, `"RLIMIT_X"`, `:X` and `:RLIMIT_X` all resolve alike, to what the constant X holds, or all fail. |
| Resolver.ResolveMultiline | lib/rlimit.rb:196-205 | A name containing a line break never resolves. |
| Resolver.ResolveInfinityName | lib/rlimit.rb:195-212 | `RLIM_INFINITY` is an Integer constant, so its name, with or without the prefix, resolves to its value. |
| Resolver.ResolveExceptionNames | lib/rlimit.rb:195-210 | The exception class names are constants but not Integers, so they raise ArgumentError. |
| Errno.Classify | lib/rlimit.rb:217-232 | EINVAL, and only EINVAL, raises ArgumentError. EPERM, and only EPERM, raises PermissionDenied. Every other errno, EFAULT included, raises RuntimeError. |
| Errno.ClassifyAsWritten | lib/rlimit.rb:222-224 | As written, EINVAL raises NameError, because the message names the undefined `resource`. Every other errno agrees with `Errno.Classify`. |
| Syscalls.GetRLimit | lib/rlimit.rb:250 | An injected errno is what the read reports. Without one, an unknown id is EINVAL, and a known id yields its pair. |
| Syscalls.SetRLimitErrno | lib/rlimit.rb:249 | An injected errno is what the write reports. Without one, an unknown id or soft > hard is EINVAL, and an unprivileged raise of the hard limit is EPERM. A write is accepted exactly when none of these applies. |
| Syscalls.AfterSetRLimit | lib/rlimit.rb:249 | An accepted write replaces its own id's pair. A refused write changes nothing. No other id changes, the set of ids is kept, and an ordered kernel stays ordered. |
| Syscalls.Kernel.constructor | lib/rlimit.rb:249-250 | The kernel starts in the given state, injected errnos included, with an empty write log. |
| Syscalls.Kernel.SetRLimit | lib/rlimit.rb:156 | The call returns `SetRLimitErrno` of the old state. The new state is `AfterSetRLimit` of the old one, and the write is appended to the log. |
| RLimit.Fetch | lib/rlimit.rb:77-83 | The read succeeds exactly when the resource resolves to an id within the C `int` range and `getrlimit` succeeds, and then returns the kernel's pair. A resolution failure is ArgumentError. An id out of range is RangeError. A read failure goes through `raise_errno`. |
| RLimit.Get | lib/rlimit.rb:76-92 | Succeeds exactly when the read succeeds and the limit type is valid. A read failure wins over an invalid limit type. Both limits, or one, are reported through `rlim_xlat`. |
| RLimit.GetHalves | lib/rlimit.rb:85-91 | `get(r, :soft)` and `get(r, :hard)` are the two halves of `get(r)`. An unknown limit type fails with ArgumentError exactly when `get(r)` succeeds. |
| RLimit.GetOrdered | lib/rlimit.rb:56-65 | On an ordered kernel, with RLIM_INFINITY the largest `rlim_t`, the reported soft limit is at most the hard one, and `:unlimited` ranks above every Integer. |
| RLimit.Supports | lib/rlimit.rb:40-46 | Returns true exactly when `get` succeeds and false exactly when `get` raises ArgumentError. Any other exception propagates unchanged. |
| RLimit.SupportsUnknownName | lib/rlimit.rb:40-46 | A name that is no constant is unsupported whatever the kernel holds. |
| RLimit.Effective | lib/rlimit.rb:143-149 | `nil` keeps the current wire value. `:unlimited` writes RLIM_INFINITY. Any Integer writes its residue modulo 2^64, so an in-range Integer writes itself and -1 writes 2^64 - 1. |
| RLimit.Prepare | lib/rlimit.rb:126-154 | Never yields a write with soft > hard. Errors come in code order: resource, limit values, then the read (RangeError or the classified errno). Otherwise the write is the overlaid pair when soft ≤ hard, and HardLimitExceeded naming the hard limit when not. |
| RLimit.Set | lib/rlimit.rb:126-161 | If `Prepare` fails, that exception is raised and nothing changes. Otherwise its write is issued once. The kernel becomes `AfterSetRLimit`, and the result is true, or the errno passed through `raise_errno`. |
| RLimit.SetKeepsOrdered | lib/rlimit.rb:151-156 | Every write `set` issues keeps an ordered kernel ordered. EINVAL from `setrlimit` can come only from an unknown id or an injected fault. |
| RLimit.UnlimitedIsMaximal | lib/rlimit.rb:143-154 | With RLIM_INFINITY the largest `rlim_t`, a hard limit of `:unlimited` is never refused as HardLimitExceeded. An unlimited soft limit under any finite hard limit is refused, naming that limit. |
| RLimit.GetAsWritten | lib/rlimit.rb:76-92 | As written, `get` raises NameError exactly when the resolved read fails with EINVAL. On every other input it agrees with `RLimit.Get`. |
| RLimit.SupportsAsWritten | lib/rlimit.rb:40-46 | As written, `supports?` returns true exactly when `get` succeeds and false exactly when `get` raises ArgumentError. Every other exception `get` raises, NameError included, escapes unchanged. |
| RLimit.SupportsRejectedId | lib/rlimit.rb:40-46 | Take an Integer id the kernel rejects with EINVAL. The intended `supports?` returns false for it, and the code as written raises NameError. |
| RLimit.PrepareAsWritten | lib/rlimit.rb:126-154 | As written, `set` yields a write only when neither current limit is RLIM_INFINITY, and never one with soft > hard. |
| RLimit.PrepareAgreesAwayFromInfinity | lib/rlimit.rb:129-149 | The code as written and the intended code compute the same write or the same error under three conditions: no current limit is RLIM_INFINITY, neither argument is the raw RLIM_INFINITY Integer, and the kernel does not answer EINVAL. `:unlimited` arguments are included. |
| RLimit.SetUnderUnlimitedHard | lib/rlimit.rb:141 | When the current hard limit is RLIM_INFINITY, `set(r, soft)` as written raises TypeError. The intended `set` writes the new soft limit and keeps the unlimited hard limit. |
| RLimit.SetRawInfinitySoft | lib/rlimit.rb:129-144 | A soft limit given as the raw RLIM_INFINITY Integer makes `set` as written raise TypeError. The intended `set` treats it exactly as `:unlimited`. |
| RLimit.SupportsOutOfRangeId | lib/rlimit.rb:40-46 | A resource whose id does not fit a C `int` makes `get` raise RangeError, and `supports?` lets it escape, as written and as intended. |
| ResourceList.Intersect | lib/rlimit.rb:25 | Ruby's `&`: an element is in the result exactly when it is in both operands, and none appears twice. |
| ResourceList.Prefixed | lib/rlimit.rb:25 | Puts `RLIMIT_` before each name, position by position. |
| ResourceList.Among | lib/rlimit.rb:25 | The intersection, prefixed: never more names than constants, and each name starts with `RLIMIT_`. |
| ResourceList.Resources | lib/rlimit.rb:24-26 | `resources` lists at most one name per module constant, each starting with `RLIMIT_`. |
| ResourceList.AmongExact | lib/rlimit.rb:24-26 | Each reported name is `RLIMIT_` plus a possible resource the module defines. Each such resource is reported, and none twice. |
| ResourceList.ResourcesExact | lib/rlimit.rb:24-26 | `resources` is exactly the prefixed defined possible resources, with no duplicates. |
| ResourceList.PossibleResourcesOneLine | lib/rlimit.rb:258-278 | No possible resource name contains a line break. |
| ResourceList.PossibleResourcesUnprefixed | lib/rlimit.rb:258-278 | No possible resource name already starts with `RLIMIT_`. |
| ResourceList.ResourcesResolve | lib/rlimit.rb:24-26 | Round trip: every listed constant is defined, and every generated resource constant is an Integer, as loading the module guarantees (lines 280-289). Then each name `resources` reports resolves through `res_xlat` without error, to the Integer the bare resource constant holds. |
| ResourceList.NotReported | lib/rlimit.rb:24-26 | A constant that is unprefixed and not a possible resource is reported neither bare nor prefixed. |
| ResourceList.ResourcesExcludeOtherConstants | lib/rlimit.rb:24-26 | `resources` never lists RLIM_INFINITY or the exception classes, with or without the prefix. |
| ResourceList.InfinityNotPossible | lib/rlimit.rb:258-278 | RLIM_INFINITY is neither prefixed nor a possible resource. |
| ResourceList.ExceptionsNotPossible | lib/rlimit.rb:258-278 | The exception class names are neither prefixed nor possible resources. |
| ResourceList.PrefixInjective | lib/rlimit.rb:25 | Two names that are equal after prefixing were equal before. |
| Scenarios.LinuxWellFormed | lib/rlimit.rb:14-20 | The Linux-like platform defines the constants the module always has. |
| Scenarios.LinuxResourcesDefined | lib/rlimit.rb:280-289 | On the Linux-like platform, every listed constant is defined and every resource constant holds an Integer. |
| Scenarios.ModuleConstantsNotPossible | lib/rlimit.rb:258-278 | `FFI` and `POSSIBLE_RESOURCES` are not possible resource names. |
| Scenarios.NofileForms | spec/rlimit_get_spec.rb:29-43 | "NOFILE" and "RLIMIT_NOFILE", as Strings or Symbols, resolve to RLIMIT_NOFILE. |
| Scenarios.GetScenarios | spec/rlimit_get_spec.rb:6-43 | On the stub kernel, `get` reports both limits or either one under every form of NOFILE. An unknown limit type raises ArgumentError. |
| Scenarios.GetUnknownResource | spec/rlimit_get_spec.rb:21-23 | `get("ohai!")` raises ArgumentError. |
| Scenarios.GetUnlimitedHard | spec/rlimit_get_spec.rb:45-66 | A hard limit of RLIM_INFINITY is reported as `:unlimited`. |
| Scenarios.SupportsNofile | spec/rlimit_supports_spec.rb:6-10 | Every form of NOFILE is supported. |
| Scenarios.SupportsRejectsUnknown | spec/rlimit_supports_spec.rb:12-18 | `OHAI` is unsupported. |
| Scenarios.SupportsRejectsModule | spec/rlimit_supports_spec.rb:20-22 | The module itself, by its name, is unsupported. |
| Scenarios.ResourcesHasNofile | spec/rlimit_resources_spec.rb:6-8 | `resources` lists RLIMIT_NOFILE. |
| Scenarios.ResourcesLacksUnknown | spec/rlimit_resources_spec.rb:10-12 | `resources` does not list RLIMIT_WTFISTHIS. |
| Scenarios.SetBothScenario | spec/rlimit_set_spec.rb:19-31 | `set(NOFILE, 4096, 65536)` writes (4096, 65536) and returns true. |
| Scenarios.SetSoftOnlyScenario | spec/rlimit_set_spec.rb:33-61 | `set("RLIMIT_NOFILE", 4096)` keeps the hard limit 1048576 and returns true. |
| Scenarios.SetHardOnlyScenario | spec/rlimit_set_spec.rb:63-75 | `set(NOFILE, nil, 65536)` keeps the soft limit 1024 and returns true. |
| Scenarios.SetUnlimitedScenario | spec/rlimit_set_spec.rb:77-89 | `set(NOFILE, :unlimited, :unlimited)` writes RLIM_INFINITY twice. |
| Scenarios.SetRefusedScenarios | spec/rlimit_set_spec.rb:91-122 | A soft limit above the current or the given hard limit raises HardLimitExceeded naming that limit, before any write. An unprivileged raise of the hard limit raises PermissionDenied and changes nothing. |
| Scenarios.SetStubbedErrnoScenarios | spec/rlimit_set_spec.rb:107-122 | With `setrlimit` stubbed to fail, EPERM raises PermissionDenied and EFAULT raises RuntimeError. The limits are unchanged. |
| Scenarios.SupportsOutOfRangeScenarios | lib/rlimit.rb:40-46 | `supports?(2**32)` and `supports?(:RLIM_INFINITY)` raise RangeError. |
| Scenarios.RawInfinitySoftScenario | lib/rlimit.rb:129-144 | `set(NOFILE, RLIM_INFINITY)` raises TypeError as written. As intended, it is refused as HardLimitExceeded(1048576), like `:unlimited`. |
| Scenarios.SetArgumentErrors | spec/rlimit_set_spec.rb:125-137 | An unknown resource, or a non-Integer soft or hard limit, raises ArgumentError. |
| Scenarios.FindingScenarios | lib/rlimit.rb:141 | Concrete inputs for both findings: `set(NOFILE, 4096)` under an unlimited hard limit, and `supports?(9999)`. |
| Scenarios.UnlimitedAgreesScenario | spec/rlimit_set_spec.rb:77-89 | `set(NOFILE, :unlimited, :unlimited)` computes the write (RLIM_INFINITY, RLIM_INFINITY), both as written and as intended. |

## Left out

- The FFI bindings are not modelled: `ffi_lib`, `attach_function`, the `RLimitStruct` layout and `rlim_t` lookup. The two calls are the abstract kernel of `Syscalls`.
- `FFI::ConstGenerator` and the `eval` of its output are not modelled. The constant table, the module's constant list and RLIM_INFINITY are inputs, given as a `Platform` value.
- `FFI.errno` is thread-local state. It is not modelled; the kernel returns the errno of the failing call directly.
- The race between the read and the write in `set` is not modelled. Another process or thread could change the limit in between, but the model is single-threaded.
- The exception message texts are not modelled. Only the hard limit carried by HardLimitExceeded is kept.
- `resources` memoises its result in `@resources`. The cache is not modelled, because the constants cannot change after loading.
- Codec.Store: an Integer outside the 64-bit range would make FFI raise RangeError. The model reduces it modulo 2^64 instead.
- RLimit.Prepare: the range check at lines 132-138 raises ArgumentError when the hard limit is given as the raw RLIM_INFINITY Integer, because it compares `:unlimited < 0`. Following the code's evident intent, `Prepare` never raises there. The as-written behaviour is in `RLimit.PrepareAsWritten`.
- RLimit.Prepare: a soft limit given as the raw RLIM_INFINITY Integer becomes `:unlimited` at line 129. Storing that Symbol at line 144 raises TypeError. `Prepare` treats it as RLIM_INFINITY instead (third Findings row).
- Codec.Xlat: the objects `rlim_xlat` lets through besides `nil`, `:unlimited` and Integers are not modelled. A negative Float, and a Float at or above 2^32, pass through. A Float in [0, 2^32) raises NameError, from the undefined `soft_limit` in its message. An object without `<` raises NoMethodError. Every non-Integer is modelled as `Bad`, which raises ArgumentError; the library's examples (`:lolidunno`) are of that kind.
- Resolver.Resolve: `res_xlat` treats every non-Integer through its `to_s`, and `const_get` also finds constants inherited from `Object`. Both are captured only as far as the `Platform` table lists them. The "RLimit" row of the Linux platform is one such entry.

## Findings

| source | as written | input that shows it | evidently intended | confidence | as-written member | corrected member |
|---|---|---|---|---|---|---|
| lib/rlimit.rb:222-224 | The EINVAL branch builds its message from `resource`, which is not defined in `raise_errno`, so NameError is raised instead of ArgumentError. `supports?` rescues only ArgumentError, so the NameError escapes. | `supports?(9999)` on Linux, where `getrlimit` answers EINVAL | EINVAL raises ArgumentError, and `supports?(9999)` returns false | not executed | RLimit.SupportsRejectedId | RLimit.Supports |
| lib/rlimit.rb:141 | `set` stores what `get` returns into the `rlim_t` fields, and `get` reports RLIM_INFINITY as `:unlimited`. Assigning that Symbol to the field raises TypeError. | `set(NOFILE, 4096)` when the current hard limit is RLIM_INFINITY | `set` writes soft 4096 and keeps the unlimited hard limit | not executed | RLimit.SetUnderUnlimitedHard | RLimit.Prepare |
| lib/rlimit.rb:129-144 | `rlim_xlat` accepts the raw RLIM_INFINITY Integer (line 173 exempts it from the range test) and turns it into `:unlimited`. Line 144 then stores that Symbol into the `rlim_t` field, which raises TypeError. | `set(NOFILE, RLIM_INFINITY)` | the raw RLIM_INFINITY is stored as RLIM_INFINITY, as `:unlimited` is | not executed | RLimit.SetRawInfinitySoft | RLimit.Prepare |
