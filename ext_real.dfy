/**
 * Extended non-NaN reals: a finite number or JavaScript's `Infinity`.
 * Travel durations, averages and fairness scores take this form.
 */
module ExtReal {

  datatype Ext = Fin(v: real) | Inf

  /**
   * The strict order that `Array.prototype.sort` sees through a comparator
   * `(a, b) => a - b`: `Infinity - Infinity` is `NaN`, which the sort treats as
   * "equal", and a finite value is below `Infinity`.
   */
  predicate Less(x: Ext, y: Ext)
  {
    match (x, y)
    case (Fin(a), Fin(b)) => a < b
    case (Fin(_), Inf) => true
    case (Inf, _) => false
  }

  /** Not above: the reflexive companion of `Less`. */
  predicate Le(x: Ext, y: Ext)
  {
    !Less(y, x)
  }

  lemma {:induction false} LeTotalPreorder(x: Ext, y: Ext, z: Ext)
    ensures Le(x, x)
    ensures Le(x, y) || Le(y, x)
    ensures Le(x, y) && Le(y, z) ==> Le(x, z)
    ensures Less(x, y) && Le(y, z) ==> Less(x, z)
    ensures Le(x, y) && Less(y, z) ==> Less(x, z)
    ensures Le(x, y) && Le(y, x) <==> x == y
  {
  }
}
