/** The bounded retry of getAssessment(): after readiness, up to `retries`
    attempts, each a refresh() followed by a retrieval; the first truthy value
    is returned, a thrown error ends everything, an empty value costs one
    delay before the next attempt. */
module Retry {
  import opened Common

  /** getAssessment()'s `retries` when the caller passes none (or `undefined`). */
  const DefaultRetries := 5

  /** The `retries` a call runs with: the caller's argument, or the default. */
  function Retries(given: Option<int>): int {
    if given.Some? then given.value else DefaultRetries
  }

  /** What the vendor's getAssessment() resolved to. */
  datatype Value = Null | Undefined | Str(s: string)

  /** JavaScript truthiness of that value: null, undefined and "" are falsy. */
  predicate Truthy(v: Value) {
    v.Str? && v.s != ""
  }

  /** One attempt against the vendor object: refresh() threw, getAssessment()
      threw, or getAssessment() resolved to a value. */
  datatype Attempt = RefreshThrew(err: nat) | RetrievalThrew(err: nat) | Returned(v: Value)

  /** How the vendor object behaves during one call: what attempt n (counted
      from 1) yields. */
  type Vendor = nat -> Attempt

  /** An attempt after which the loop waits and tries again. */
  predicate Empty(a: Attempt) {
    a.Returned? && !Truthy(a.v)
  }

  /** What one call does: what it returns or throws, how many attempts it
      started, how many delays it waited, and the failures it dispatched as
      `error` events. */
  datatype Outcome = Outcome(result: Result<string>, attempts: nat, delays: nat, raised: seq<Failure>)

  function Shift(o: Outcome, k: nat): Outcome {
    o.(attempts := o.attempts + k, delays := o.delays + k)
  }

  /** The loop from attempt number `attempt` on, counting from there. */
  function RunFrom(vendor: Vendor, retries: int, attempt: nat): Outcome
    requires attempt >= 1
    decreases if attempt <= retries then retries - attempt + 1 else 0
  {
    if attempt > retries then Outcome(Err(NoData), 0, 0, [NoData])
    else match vendor(attempt)
      case RefreshThrew(e) => Outcome(Err(Vendor(e)), 1, 0, [Vendor(e)])
      case RetrievalThrew(e) => Outcome(Err(Vendor(e)), 1, 0, [Vendor(e)])
      case Returned(v) =>
        if Truthy(v) then Outcome(Ok(v.s), 1, 0, [])
        else Shift(RunFrom(vendor, retries, attempt + 1), 1)
  }

  /** The part of getAssessment() that follows readiness: no vendor object is
      a failure before any attempt and is not dispatched; otherwise the loop
      from attempt 1. */
  function Run(monocle: Option<nat>, retries: int, vendor: Vendor): Outcome {
    if monocle.None? then Outcome(Err(MclUndefined), 0, 0, [])
    else RunFrom(vendor, retries, 1)
  }

  /** The loop itself. */
  method Retrieve(monocle: Option<nat>, retries: int, vendor: Vendor) returns (o: Outcome)
    ensures o == Run(monocle, retries, vendor)
    ensures o.result.Ok? ==> vendor(o.attempts) == Returned(Str(o.result.value)) && o.result.value != ""
    ensures forall j :: 1 <= j < o.attempts ==> Empty(vendor(j))
  {
    if monocle.None? {
      return Outcome(Err(MclUndefined), 0, 0, []);
    }
    var attempt := 1;
    var delays := 0;
    while attempt <= retries
      invariant 1 <= attempt && delays == attempt - 1
      invariant attempt > 1 ==> attempt <= retries + 1
      invariant forall j :: 1 <= j < attempt ==> Empty(vendor(j))
      decreases retries - attempt
    {
      var a := vendor(attempt);
      if !a.Returned? {
        // refresh() or getAssessment() threw: dispatched, then re-thrown
        SkipEmpty(vendor, retries, 1, attempt);
        return Outcome(Err(Vendor(a.err)), attempt, delays, [Vendor(a.err)]);
      }
      if Truthy(a.v) {
        SkipEmpty(vendor, retries, 1, attempt);
        return Outcome(Ok(a.v.s), attempt, delays, []);
      }
      // no assessment yet: wait delayMs before the next attempt
      delays := delays + 1;
      attempt := attempt + 1;
    }
    if attempt > 1 {
      SkipEmpty(vendor, retries, 1, attempt);
    }
    return Outcome(Err(NoData), attempt - 1, delays, [NoData]);
  }

  lemma ShiftShift(o: Outcome, i: nat, j: nat)
    ensures Shift(Shift(o, i), j) == Shift(o, i + j)
  {
  }

  /** One empty attempt within the bound: one attempt and one delay, then the rest. */
  lemma EmptyStep(vendor: Vendor, retries: int, a: nat)
    requires 1 <= a <= retries && Empty(vendor(a))
    ensures RunFrom(vendor, retries, a) == Shift(RunFrom(vendor, retries, a + 1), 1)
  {
  }

  /** Empty attempts only add one attempt and one delay each. */
  lemma {:induction false} SkipEmpty(vendor: Vendor, retries: int, a: nat, n: nat)
    requires 1 <= a <= n <= retries + 1
    requires forall j :: a <= j < n ==> Empty(vendor(j))
    ensures RunFrom(vendor, retries, a) == Shift(RunFrom(vendor, retries, n), n - a)
    decreases n - a
  {
    if a == n {
      ShiftZero(RunFrom(vendor, retries, n));
    } else {
      EmptyStep(vendor, retries, a);
      SkipEmpty(vendor, retries, a + 1, n);
      ShiftShift(RunFrom(vendor, retries, n), n - (a + 1), 1);
    }
  }

  lemma ShiftZero(o: Outcome)
    ensures Shift(o, 0) == o
  {
  }

  /** At most `retries` attempts (none when it is not positive); a delay only
      ever follows an attempt; at most one `error` is dispatched, and it is the
      failure thrown, except for a missing vendor object, which is not
      dispatched. */
  lemma {:induction false} RunBounds(monocle: Option<nat>, retries: int, vendor: Vendor)
    ensures var o := Run(monocle, retries, vendor);
      && o.attempts <= (if retries > 0 then retries else 0)
      && o.delays <= o.attempts
      && o.raised == (if o.result.Err? && o.result.failure != MclUndefined then [o.result.failure] else [])
  {
    if monocle.Some? {
      RunFromBounds(vendor, retries, 1);
    }
  }

  lemma {:induction false} RunFromBounds(vendor: Vendor, retries: int, a: nat)
    requires a >= 1
    ensures var o := RunFrom(vendor, retries, a);
      && o.attempts <= (if retries >= a then retries - a + 1 else 0)
      && o.delays <= o.attempts
      && o.raised == (if o.result.Err? then [o.result.failure] else [])
      && o.result != Err(MclUndefined)
    decreases if a <= retries then retries - a + 1 else 0
  {
    if a <= retries && Empty(vendor(a)) {
      RunFromBounds(vendor, retries, a + 1);
    }
  }

  /** The first truthy value is returned at once: attempt n after n - 1 empty
      attempts and n - 1 delays, with nothing dispatched. */
  lemma RunReturnsFirstValue(monocle: Option<nat>, vendor: Vendor, retries: int, n: nat)
    requires monocle.Some? && 1 <= n <= retries
    requires forall j :: 1 <= j < n ==> Empty(vendor(j))
    requires vendor(n).Returned? && Truthy(vendor(n).v)
    ensures Run(monocle, retries, vendor) == Outcome(Ok(vendor(n).v.s), n, n - 1, [])
  {
    SkipEmpty(vendor, retries, 1, n);
  }

  /** A throwing refresh() or retrieval is not retried: the vendor's own error
      is dispatched once and thrown, at attempt n. */
  lemma RunStopsOnThrow(monocle: Option<nat>, vendor: Vendor, retries: int, n: nat)
    requires monocle.Some? && 1 <= n <= retries
    requires forall j :: 1 <= j < n ==> Empty(vendor(j))
    requires !vendor(n).Returned?
    ensures var e := Vendor(vendor(n).err);
      Run(monocle, retries, vendor) == Outcome(Err(e), n, n - 1, [e])
  {
    SkipEmpty(vendor, retries, 1, n);
  }

  /** When every attempt is empty: exactly `retries` attempts and as many
      delays, the last one included, then NoData is dispatched and thrown. */
  lemma RunExhausts(monocle: Option<nat>, vendor: Vendor, retries: int)
    requires monocle.Some?
    requires forall j :: 1 <= j <= retries ==> Empty(vendor(j))
    ensures var n := if retries > 0 then retries else 0;
      Run(monocle, retries, vendor) == Outcome(Err(NoData), n, n, [NoData])
  {
    if retries > 0 {
      SkipEmpty(vendor, retries, 1, retries + 1);
    }
  }

  /** getAssessment() with no argument: at most five attempts, and against a
      vendor that never has a value, exactly five attempts and five delays,
      then NoData is dispatched and thrown. */
  lemma DefaultRun(monocle: Option<nat>, vendor: Vendor)
    ensures Run(monocle, Retries(None), vendor).attempts <= DefaultRetries
    ensures monocle.Some? && (forall j :: 1 <= j <= DefaultRetries ==> Empty(vendor(j))) ==>
      Run(monocle, Retries(None), vendor) == Outcome(Err(NoData), 5, 5, [NoData])
  {
    RunBounds(monocle, Retries(None), vendor);
    if monocle.Some? && forall j :: 1 <= j <= DefaultRetries ==> Empty(vendor(j)) {
      RunExhausts(monocle, vendor, Retries(None));
    }
  }
}
