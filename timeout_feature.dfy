/** The timeout setting shared by the drivers. */
module TimeoutFeature {
  import opened Wrappers
  import opened Exceptions

  /** A stored timeout is either disabled or a positive amount. */
  predicate ValidTimeout(t: Option<int>) {
    t.None? || t.value > 0
  }

  /** The outcome of `setTimeout(amount)`: accepted, or the exception it raises. */
  function TimeoutCheck(amount: Option<int>): (r: Outcome<Exception>)
    ensures r.Pass? <==> ValidTimeout(amount)
    ensures amount == Some(0) ==> r == Fail(InvalidArgument("Use NULL to disable the timeout"))
    ensures amount.Some? && amount.value < 0 ==> r == Fail(RangeError("Timeout amount must be a positive integer"))
  {
    if amount.None? || amount.value > 0 then Pass
    else if amount.value == 0 then Fail(InvalidArgument("Use NULL to disable the timeout"))
    else Fail(RangeError("Timeout amount must be a positive integer"))
  }

  class Timeouts {
    var timeout: Option<int>

    ghost predicate Valid()
      reads this
    {
      ValidTimeout(timeout)
    }

    /** Initially there is no timeout. */
    constructor ()
      ensures timeout == None && Valid()
    {
      timeout := None;
    }

    /** `setTimeout`: stores an accepted amount; a refused one leaves the setting as it was. */
    method SetTimeout(amount: Option<int>) returns (r: Outcome<Exception>)
      requires Valid()
      modifies this
      ensures Valid()
      ensures r == TimeoutCheck(amount)
      ensures timeout == (if r.Pass? then amount else old(timeout))
    {
      r := TimeoutCheck(amount);
      if r.Pass? {
        timeout := amount;
      }
    }

    /** `getTimeout`. */
    method GetTimeout() returns (r: Option<int>)
      requires Valid()
      ensures r == timeout && ValidTimeout(r)
    {
      r := timeout;
    }
  }
}
