/** The platform data the library is built against: the constants visible
    from the `RLimit` module, generated once from `<sys/resource.h>`, and the
    value of RLIM_INFINITY. */
module Platform {
  import opened Codec

  /** The value of a constant: an Integer (a resource id, RLIM_INFINITY, an
      Integer constant inherited from Object) or any other object (the
      exception classes, the `FFI` module, the `POSSIBLE_RESOURCES` array). */
  datatype Const = IntC(n: int) | OtherC

  /** `table` maps every name under which `const_get` on the module finds a
      constant to its value; `constants` lists the module's own constants in
      the order `RLimit.constants` reports them; `inf` is RLIM_INFINITY. */
  datatype Platform = Platform(table: map<string, Const>, constants: seq<string>, inf: RlimT)

  /** What the module always defines besides the resource ids: RLIM_INFINITY
      as an Integer, and the exception classes, the FFI module and the list
      of possible resources as non-Integers.  No constant name contains a
      line break. */
  predicate WellFormed(p: Platform) {
    && "RLIM_INFINITY" in p.table && p.table["RLIM_INFINITY"] == IntC(p.inf)
    && "HardLimitExceeded" in p.table && p.table["HardLimitExceeded"] == OtherC
    && "PermissionDenied" in p.table && p.table["PermissionDenied"] == OtherC
    && "FFI" in p.table && p.table["FFI"] == OtherC
    && "POSSIBLE_RESOURCES" in p.table && p.table["POSSIBLE_RESOURCES"] == OtherC
    && (forall name :: name in p.table ==> '\n' !in name)
  }
}
