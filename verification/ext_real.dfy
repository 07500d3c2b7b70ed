/** Real numbers extended with +Infinity, as JavaScript numbers are used by the
    route planner: path sums are finite reals or `Infinity` when a hop is
    missing. */
module ExtReal {

  datatype Ext = Fin(val: real) | Inf

  /** Addition; Infinity absorbs. */
  function Add(a: Ext, b: Ext): (r: Ext)
    ensures r.Inf? <==> a.Inf? || b.Inf?
    ensures r.Fin? ==> r.val == a.val + b.val
  {
    if a.Inf? || b.Inf? then Inf else Fin(a.val + b.val)
  }

  /** The order a JavaScript comparator `(x, y) => x - y` induces on these
      values: `Infinity - Infinity` is NaN, which `Array.prototype.sort`
      treats as 0, so two infinities compare equal. */
  predicate Le(a: Ext, b: Ext) {
    match (a, b)
    case (Fin(x), Fin(y)) => x <= y
    case (_, Inf) => true
    case (Inf, Fin(_)) => false
  }

  predicate Lt(a: Ext, b: Ext) {
    !Le(b, a)
  }

  lemma LeTotalPreorder(a: Ext, b: Ext, c: Ext)
    ensures Le(a, a)
    ensures Le(a, b) || Le(b, a)
    ensures Le(a, b) && Le(b, c) ==> Le(a, c)
  {
  }
}
