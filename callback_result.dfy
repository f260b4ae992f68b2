/**
 * `callback_result`: what a visitor callback tells the loop that calls it, and the elements
 * such a loop hands to the callback before it stops.
 */
module CallbackResults {
  datatype CallbackResult = Continue | Abort

  /** What a visitor loop hands to its callback: every element in order, up to and including the first ABORT. */
  function VisitedUntilAbort<T>(xs: seq<T>, callback: T -> CallbackResult): seq<T> {
    if xs == [] then []
    else if callback(xs[0]) == Abort then [xs[0]]
    else [xs[0]] + VisitedUntilAbort(xs[1..], callback)
  }

  /** The visit is a prefix of the elements, every visited element but the last answered CONTINUE, and it stops early only on ABORT. */
  lemma {:induction false} VisitedUntilAbortStopsAtFirstAbort<T>(xs: seq<T>, callback: T -> CallbackResult)
    ensures var v := VisitedUntilAbort(xs, callback);
      v <= xs
      && (forall k | 0 <= k < |v| - 1 :: callback(v[k]) == Continue)
      && (|v| < |xs| ==> |v| > 0 && callback(v[|v| - 1]) == Abort)
  {
    if xs != [] && callback(xs[0]) != Abort {
      VisitedUntilAbortStopsAtFirstAbort(xs[1..], callback);
      var v := VisitedUntilAbort(xs, callback);
      var w := VisitedUntilAbort(xs[1..], callback);
      assert v == [xs[0]] + w;
      assert xs == [xs[0]] + xs[1..];
      forall k | 0 <= k < |v| - 1
        ensures callback(v[k]) == Continue
      {
        if k > 0 {
          assert v[k] == w[k - 1];
        }
      }
    }
  }

  /** When no callback aborts, every element is visited. */
  lemma {:induction false} VisitsAllWithoutAbort<T>(xs: seq<T>, callback: T -> CallbackResult)
    requires forall k | 0 <= k < |xs| :: callback(xs[k]) == Continue
    ensures VisitedUntilAbort(xs, callback) == xs
  {
    if xs != [] {
      VisitsAllWithoutAbort(xs[1..], callback);
      assert xs == [xs[0]] + xs[1..];
    }
  }

  /** One step of the visit: the element is handed over, and the visit goes on only after CONTINUE. */
  lemma VisitStep<T>(xs: seq<T>, k: nat, callback: T -> CallbackResult)
    requires k < |xs|
    ensures callback(xs[k]) == Abort ==> VisitedUntilAbort(xs[k..], callback) == [xs[k]]
    ensures callback(xs[k]) == Continue ==>
              VisitedUntilAbort(xs[k..], callback) == [xs[k]] + VisitedUntilAbort(xs[k + 1..], callback)
  {
    assert xs[k..][0] == xs[k] && xs[k..][1..] == xs[k + 1..];
  }

  /** After k elements that all answered CONTINUE, the visit is those k elements followed by the visit of the rest. */
  lemma {:induction false} VisitAfterContinues<T>(xs: seq<T>, k: nat, callback: T -> CallbackResult)
    requires k <= |xs|
    requires forall j | 0 <= j < k :: callback(xs[j]) == Continue
    ensures VisitedUntilAbort(xs, callback) == xs[..k] + VisitedUntilAbort(xs[k..], callback)
  {
    if k > 0 {
      VisitAfterContinues(xs, k - 1, callback);
      VisitStep(xs, k - 1, callback);
      assert xs[..k] == xs[..k - 1] + [xs[k - 1]];
    }
  }
}
