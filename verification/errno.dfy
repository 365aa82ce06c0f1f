/** The errno classifier, `raise_errno`: the exception raised when
    `getrlimit` or `setrlimit` fails. */
module Errno {
  import opened Types

  /** Error numbers as Linux defines them. */
  const EPERM: int := 1
  const EFAULT: int := 14
  const EINVAL: int := 22

  /** `raise_errno`, total over error numbers: EFAULT is a RuntimeError (a
      pointer outside the address space cannot happen), EINVAL an
      ArgumentError (the kernel rejected the resource id), EPERM is
      PermissionDenied, and any other number a RuntimeError. */
  function Classify(errno: int): (r: Error)
    ensures r == ArgumentError <==> errno == EINVAL
    ensures r == PermissionDenied <==> errno == EPERM
    ensures r == RuntimeError <==> errno != EINVAL && errno != EPERM
  {
    if errno == EFAULT then RuntimeError
    else if errno == EINVAL then ArgumentError
    else if errno == EPERM then PermissionDenied
    else RuntimeError
  }

  /** `raise_errno` as written: the EINVAL branch builds its message from
      `resource`, which is not defined in that method, so Ruby raises
      NameError before the ArgumentError can be raised. */
  function ClassifyAsWritten(errno: int): (r: Error)
    ensures r == NameError <==> errno == EINVAL
    ensures errno != EINVAL ==> r == Classify(errno)
  {
    if errno == EFAULT then RuntimeError
    else if errno == EINVAL then NameError
    else if errno == EPERM then PermissionDenied
    else RuntimeError
  }
}
