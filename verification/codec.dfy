/** The limit codec: `rlim_xlat`, the one translation used in both
    directions between the wire sentinel RLIM_INFINITY and the logical
    marker `:unlimited`, and what storing a value into an `rlim_t` field of
    the `struct rlimit` keeps. */
module Codec {
  import opened Types

  /** `rlim_t` is an unsigned 64-bit integer. */
  const RLIM_T_MODULUS: int := 0x1_0000_0000_0000_0000

  type RlimT = x: int | 0 <= x < RLIM_T_MODULUS

  /** The largest `rlim_t`, which is RLIM_INFINITY on Linux. */
  const RLIM_T_MAX: RlimT := RLIM_T_MODULUS - 1

  /** A limit argument as Ruby code hands it over: `nil`, `:unlimited`, an
      Integer, or any other object (a Symbol such as `:lolidunno`, a String). */
  datatype LimitArg = Nil | Unlimited | Int(n: int) | Bad

  /** `rlim_xlat`: RLIM_INFINITY becomes `:unlimited` and `:unlimited`
      becomes RLIM_INFINITY; `nil` and every other Integer pass through
      (the `is_a?(Integer)` test accepts any Integer before the range test
      is reached); anything else is an ArgumentError. */
  function Xlat(l: LimitArg, inf: RlimT): (r: Result<LimitArg, Error>)
    ensures r.Err? <==> l.Bad?
    ensures r.Err? ==> r.error == ArgumentError
    ensures r.Ok? && r.value.Unlimited? <==> l == Int(inf)
    ensures r == Ok(Int(inf)) <==> l.Unlimited?
    ensures r.Ok? && !l.Unlimited? && l != Int(inf) ==> r.value == l
  {
    if l.Bad? then Err(ArgumentError)
    else if l == Int(inf) then Ok(Unlimited)
    else if l == Unlimited then Ok(Int(inf))
    else Ok(l)
  }

  /** Applying `rlim_xlat` twice gives back every accepted value. */
  lemma XlatInvolution(l: LimitArg, inf: RlimT)
    requires !l.Bad?
    ensures Xlat(l, inf).Ok? && Xlat(Xlat(l, inf).value, inf) == Ok(l)
  {
  }

  /** The logical value `get` reports for a wire value read from the kernel. */
  function Decode(w: RlimT, inf: RlimT): (v: LimitArg)
    ensures v.Unlimited? <==> w == inf
    ensures !v.Unlimited? ==> v == Int(w)
  {
    Xlat(Int(w), inf).value
  }

  /** What assigning an Integer or `:unlimited` to an `rlim_t` field keeps,
      as the code intends it: `:unlimited` is stored as RLIM_INFINITY and an
      Integer is reduced to 64 unsigned bits. */
  function Store(v: LimitArg, inf: RlimT): (w: RlimT)
    requires v.Int? || v.Unlimited?
    ensures v.Unlimited? ==> w == inf
    ensures v.Int? && 0 <= v.n < RLIM_T_MODULUS ==> w == v.n
    ensures v.Int? ==> w % RLIM_T_MODULUS == v.n % RLIM_T_MODULUS
  {
    if v.Unlimited? then inf else v.n % RLIM_T_MODULUS
  }

  /** Storing what `get` reports gives back the wire value it was read from. */
  lemma StoreDecode(w: RlimT, inf: RlimT)
    ensures Store(Decode(w, inf), inf) == w
  {
  }

  /** Translating an argument with `rlim_xlat` before storing it changes
      nothing on the wire: `:unlimited` and the raw RLIM_INFINITY Integer
      both denote RLIM_INFINITY. */
  lemma StoreXlat(l: LimitArg, inf: RlimT)
    requires l.Int? || l.Unlimited?
    ensures Xlat(l, inf).Ok? && Store(Xlat(l, inf).value, inf) == Store(l, inf)
  {
  }

  /** Assigning a value to an `rlim_t` field as the code is written: FFI
      converts an Integer, but `:unlimited` is not an Integer and the
      assignment raises TypeError. */
  function StoreAsWritten(v: LimitArg): (r: Result<RlimT, Error>)
    requires v.Int? || v.Unlimited?
    ensures r.Err? <==> v.Unlimited?
    ensures r.Err? ==> r.error == TypeError
    ensures r.Ok? ==> r.value % RLIM_T_MODULUS == v.n % RLIM_T_MODULUS
  {
    if v.Unlimited? then Err(TypeError) else Ok(v.n % RLIM_T_MODULUS)
  }
}
