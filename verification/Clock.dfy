// Ticks of a monotonic clock.
module Clock {

  // Time since an earlier instant; an instant in the future counts as now.
  function Elapsed(now: nat, since: nat): nat {
    if now < since then 0 else now - since
  }
}
