/** The reconciliation effect of the two-odometer page: once both mileage
    slots hold readings, order them, price the distance and flag trips whose
    cost is over the limit. The blocking `alert` becomes the `overLimit` flag. */
module TripReconciler {
  import opened Wrappers
  import opened JsNumbers

  /** Baht charged per kilometre. */
  const RatePerKm: int := 6

  /** Cost above which the page raises its over-limit alert. */
  const CostLimit: int := 4000

  datatype Trip = Trip(start: int, end: int, distance: int, cost: int, overLimit: bool)

  /** JavaScript truthiness of a `string | null` state value. */
  predicate Truthy(m: Option<string>) {
    m.Some? && m.value != ""
  }

  /** `t` is the trip between readings `a` and `b`, whichever is larger:
      it runs from the smaller to the larger, costs the rate times the
      distance, and is flagged exactly when that cost is over the limit,
      which is from 667 km on. */
  predicate PricedTrip(a: int, b: int, t: Trip) {
    && multiset{t.start, t.end} == multiset{a, b}
    && t.start <= t.end
    && t.distance == t.end - t.start >= 0
    && t.cost == RatePerKm * t.distance
    && (t.overLimit <==> t.cost > CostLimit)
    && (t.overLimit <==> t.distance >= 667)
  }

  /** The trip two parsed readings make: swapped when reversed, then
      priced. */
  function TripOf(start: int, end: int): (r: Trip)
    ensures PricedTrip(start, end, r)
  {
    var (lo, hi) := if start > end then (end, start) else (start, end);
    var distance := hi - lo;
    var cost := distance * RatePerKm;
    Trip(lo, hi, distance, cost, cost > CostLimit)
  }

  /** Only one trip fits two readings, so `TripOf` is that trip. */
  lemma PricedTripUnique(a: int, b: int, t: Trip)
    requires PricedTrip(a, b, t)
    ensures t == TripOf(a, b)
  {
    assert t.start in multiset{a, b} && t.end in multiset{a, b};
  }

  /** The effect body: parse both slots with `parseInt`, do nothing if either
      is missing or NaN, otherwise swap reversed readings and price the trip. */
  function Reconcile(mileage1: Option<string>, mileage2: Option<string>): (r: Option<Trip>)
    ensures r.Some? <==> Truthy(mileage1) && Truthy(mileage2)
                         && ParseInt(mileage1.value).Some? && ParseInt(mileage2.value).Some?
    ensures r.Some? ==>
              PricedTrip(ParseInt(mileage1.value).value, ParseInt(mileage2.value).value, r.value)
  {
    if !(Truthy(mileage1) && Truthy(mileage2)) then None
    else
      var start, end := ParseInt(mileage1.value), ParseInt(mileage2.value);
      if start.None? || end.None? then None
      else Some(TripOf(start.value, end.value))
  }

  /** What the effect writes back into the two mileage slots. */
  function RewrittenSlots(t: Trip): (Option<string>, Option<string>) {
    (Some(IntToString(t.start)), Some(IntToString(t.end)))
  }

  /** Slots holding text that parses to `a` and `b` reconcile to their trip. */
  lemma ReconcileParsed(mileage1: Option<string>, mileage2: Option<string>, a: int, b: int)
    requires Truthy(mileage1) && Truthy(mileage2)
    requires ParseInt(mileage1.value) == Some(a) && ParseInt(mileage2.value) == Some(b)
    ensures Reconcile(mileage1, mileage2) == Some(TripOf(a, b))
  {
  }

  /** Two readings written as `Number.prototype.toString` writes them are
      ordered and priced whichever slot holds the larger one. */
  lemma ReconcileReadings(a: int, b: int)
    ensures Reconcile(Some(IntToString(a)), Some(IntToString(b))) == Some(TripOf(a, b))
  {
    ParseIntToString(a);
    ParseIntToString(b);
    ReconcileParsed(Some(IntToString(a)), Some(IntToString(b)), a, b);
  }

  /** Running the effect again on the slots it rewrote reproduces the same
      trip, so the rewritten slots are a fixed point. */
  lemma ReconcileIdempotent(mileage1: Option<string>, mileage2: Option<string>)
    requires Reconcile(mileage1, mileage2).Some?
    ensures var t := Reconcile(mileage1, mileage2).value;
            var (n1, n2) := RewrittenSlots(t);
            Reconcile(n1, n2) == Some(t)
            && RewrittenSlots(Reconcile(n1, n2).value) == (n1, n2)
  {
    var t := Reconcile(mileage1, mileage2).value;
    ReconcileReadings(t.start, t.end);
    assert TripOf(t.start, t.end) == t;
  }

  /** Reversed readings are swapped: "45231" then "44980" is a 251 km trip
      costing 1506, under the limit. */
  lemma ReversedReadingsExample()
    ensures Reconcile(Some(IntToString(45231)), Some(IntToString(44980)))
            == Some(Trip(44980, 45231, 251, 1506, false))
  {
    ReconcileReadings(45231, 44980);
  }

  /** "10000" to "10800" is 800 km costing 4800, which raises the alert. */
  lemma OverLimitExample()
    ensures Reconcile(Some(IntToString(10000)), Some(IntToString(10800)))
            == Some(Trip(10000, 10800, 800, 4800, true))
  {
    ReconcileReadings(10000, 10800);
  }

  /** The alert threshold: 666 km costs 3996 and stays quiet, 667 km costs
      4002 and alerts. */
  lemma ThresholdExamples()
    ensures Reconcile(Some(IntToString(1000)), Some(IntToString(1666)))
            == Some(Trip(1000, 1666, 666, 3996, false))
    ensures Reconcile(Some(IntToString(1667)), Some(IntToString(1000)))
            == Some(Trip(1000, 1667, 667, 4002, true))
  {
    ReconcileReadings(1000, 1666);
    ReconcileReadings(1667, 1000);
  }
}
