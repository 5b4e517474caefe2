/**
 * Optional arguments, results that may be errors, and the extended naturals used for the emitter's
 * "Infinity" defaults (total emit times, life spans).
 */
module ExtNats {

  /** An argument a JavaScript caller may leave out. */
  datatype Option<+T> = None | Some(value: T) {
    function GetOr(default: T): T {
      match this
      case Some(v) => v
      case None => default
    }
  }

  /** The outcome of an operation that may fail with an error message. */
  datatype Result<+T> = Ok(value: T) | Err(msg: string)

  /** A natural number or JavaScript's `Infinity`. */
  datatype ExtNat = Finite(n: nat) | Infinite

  /** `k < e`: a counter `k` has not yet reached the bound `e`. */
  predicate Below(k: nat, e: ExtNat) {
    match e
    case Finite(n) => k < n
    case Infinite => true
  }

  /** `k <= e`. */
  predicate AtMost(k: nat, e: ExtNat) {
    match e
    case Finite(n) => k <= n
    case Infinite => true
  }

  /** `k > e`: an age that is past a life span; nothing exceeds `Infinity`. */
  predicate Exceeds(k: nat, e: ExtNat) {
    match e
    case Finite(n) => k > n
    case Infinite => false
  }

  /** An omitted numeric argument whose default is `Infinity`. */
  function OrInfinity(o: Option<ExtNat>): (e: ExtNat)
    ensures o.Some? ==> e == o.value
    ensures o.None? ==> e.Infinite?
  {
    o.GetOr(Infinite)
  }

  /** Once an age is past a life span, any later age is too. */
  lemma ExceedsMonotone(k: nat, j: nat, e: ExtNat)
    requires Exceeds(k, e) && k <= j
    ensures Exceeds(j, e)
  {
  }
}
