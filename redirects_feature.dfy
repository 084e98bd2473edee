/** The redirect settings shared by the drivers. */
module RedirectsFeature {
  import opened Wrappers
  import opened Exceptions

  /** `$maximumRedirects < 0` in PHP: `null` compares as 0 and so is not below it. */
  predicate BelowZero(maximum: Option<int>) {
    maximum.Some? && maximum.value < 0
  }

  /** The outcome of `setMaximumRedirects(maximum)`. */
  function RedirectLimitCheck(maximum: Option<int>): (r: Outcome<Exception>)
    ensures r.Pass? <==> maximum.None? || maximum.value >= 0
    ensures r.Fail? ==> r.error == RangeError("Number of maximum redirects must be 0 or greater")
  {
    if BelowZero(maximum) then Fail(RangeError("Number of maximum redirects must be 0 or greater")) else Pass
  }

  class Redirects {
    var followRedirects: bool
    var maximumRedirects: Option<int>

    ghost predicate Valid()
      reads this
    {
      !BelowZero(maximumRedirects)
    }

    /** Initially redirects are followed, without a limit. */
    constructor ()
      ensures followRedirects && maximumRedirects == None && Valid()
    {
      followRedirects := true;
      maximumRedirects := None;
    }

    /** `followRedirects`: sets the flag and nothing else. */
    method FollowRedirects(follow: bool := true)
      modifies this`followRedirects
      ensures followRedirects == follow
    {
      followRedirects := follow;
    }

    /** `isFollowRedirectsEnabled`. */
    method IsFollowRedirectsEnabled() returns (r: bool)
      ensures r == followRedirects
    {
      r := followRedirects;
    }

    /** `setMaximumRedirects`: stores an accepted limit (0 and null included) and touches nothing else. */
    method SetMaximumRedirects(maximum: Option<int>) returns (r: Outcome<Exception>)
      requires Valid()
      modifies this`maximumRedirects
      ensures Valid()
      ensures r == RedirectLimitCheck(maximum)
      ensures maximumRedirects == (if r.Pass? then maximum else old(maximumRedirects))
    {
      r := RedirectLimitCheck(maximum);
      if r.Pass? {
        maximumRedirects := maximum;
      }
    }

    /** `getMaximumRedirects`. */
    method GetMaximumRedirects() returns (r: Option<int>)
      requires Valid()
      ensures r == maximumRedirects && !BelowZero(r)
    {
      r := maximumRedirects;
    }
  }
}
