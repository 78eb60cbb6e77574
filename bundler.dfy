/** The base of the load-balancing bundlers (AbstractBundler): every bundler is
    numbered from a shared counter, stamps its creation time, carries an override
    flag and ignores feedback. */
module Bundler {
  import opened JavaLang

  /** The class's static state: the number of bundlers created so far, an int. */
  class Counter {
    var bundlerCount: int

    predicate Valid()
      reads this
    {
      IsInt(bundlerCount)
    }

    constructor ()
      ensures bundlerCount == 0 && Valid()
    {
      bundlerCount := 0;
    }

    /** incBundlerCount: `++bundlerCount`, in 32-bit arithmetic. */
    method Inc() returns (n: int)
      requires Valid()
      modifies this
      ensures Valid()
      ensures n == bundlerCount == WrapInt(old(bundlerCount) + 1)
      ensures old(bundlerCount) < INT_MAX ==> n == old(bundlerCount) + 1
      ensures old(bundlerCount) == INT_MAX ==> n == INT_MIN
    {
      bundlerCount := WrapInt(bundlerCount + 1);
      n := bundlerCount;
    }
  }

  class AbstractBundler {
    const bundlerNumber: int
    const timestamp: int
    var override: bool

    /** A new bundler: numbered by the counter, stamped with the clock's reading
        `now`, override off. */
    constructor (counter: Counter, now: int)
      requires counter.Valid()
      modifies counter
      ensures counter.Valid()
      ensures bundlerNumber == counter.bundlerCount == WrapInt(old(counter.bundlerCount) + 1)
      ensures timestamp == now && !override
    {
      var n := counter.Inc();
      bundlerNumber := n;
      timestamp := now;
      override := false;
    }

    /** feedback(bundleSize, totalTime) does nothing. */
    method Feedback(bundleSize: int, totalTime: real)
      ensures override == old(override)
    {
    }

    method SetOverride(b: bool)
      modifies this
      ensures override == b
    {
      override := b;
    }
  }
}
