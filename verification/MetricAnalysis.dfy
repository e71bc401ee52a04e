/** The metric analysis of a canary: repeated measurements judged by their failing streaks. */
module MetricAnalysis {

  /** One measurement: an error, or the verdict of the condition. */
  datatype Measurement = Error | Measured(passed: bool)
  {
    predicate Fails() { Error? || !passed }
  }

  datatype Template = Template(count: int, failureLimit: int)

  /** A count that is not positive means one measurement. */
  function Count(t: Template): (n: nat)
    ensures n >= 1
  {
    if t.count <= 0 then 1 else t.count
  }

  /** The limits check at construction. */
  predicate Accepts(t: Template) {
    t.failureLimit < Count(t)
  }

  /** How many failing measurements, up to now, in a row. */
  function Streak(ms: seq<Measurement>): nat {
    if ms == [] || !ms[|ms| - 1].Fails() then 0 else 1 + Streak(ms[..|ms| - 1])
  }

  // The measurement at k fails and ends a streak longer than the limit.
  predicate Trips(ms: seq<Measurement>, limit: int, k: nat)
    requires k < |ms|
  {
    ms[k].Fails() && Streak(ms[..k + 1]) > limit
  }

  /** No streak is too long, and the last measurement could be taken. */
  ghost predicate Passes(ms: seq<Measurement>, limit: int) {
    ms != [] && !ms[|ms| - 1].Error? && forall k | 0 <= k < |ms| :: !Trips(ms, limit, k)
  }

  lemma StreakGrows(ms: seq<Measurement>, m: Measurement)
    ensures Streak(ms + [m]) == if m.Fails() then Streak(ms) + 1 else 0
  {
    assert (ms + [m])[..|ms|] == ms;
  }

  // What comes later does not change whether an earlier measurement trips.
  lemma TripsKept(ms: seq<Measurement>, m: Measurement, limit: int)
    ensures forall k | 0 <= k < |ms| :: Trips(ms + [m], limit, k) == Trips(ms, limit, k)
    ensures Trips(ms + [m], limit, |ms|) == (m.Fails() && Streak(ms) + 1 > limit)
  {
    StreakGrows(ms, m);
    assert (ms + [m])[..|ms| + 1] == ms + [m];
    forall k | 0 <= k < |ms| ensures Trips(ms + [m], limit, k) == Trips(ms, limit, k) {
      assert (ms + [m])[..k + 1] == ms[..k + 1];
    }
  }

  /** The first n measurements that would be taken. */
  function Samples(sample: nat -> Measurement, n: nat): (ms: seq<Measurement>)
    ensures |ms| == n
  {
    if n == 0 then [] else Samples(sample, n - 1) + [sample(n - 1)]
  }

  lemma {:induction false} TripsLater(sample: nat -> Measurement, limit: int, k: nat, n: nat)
    requires k < n && Trips(Samples(sample, k + 1), limit, k)
    ensures Trips(Samples(sample, n), limit, k)
    decreases n
  {
    if k + 1 < n {
      TripsLater(sample, limit, k, n - 1);
      TripsKept(Samples(sample, n - 1), sample(n - 1), limit);
    }
  }

  /**
   * Measure until the count is reached or a streak trips; `sample` is what each measurement would
   * give. The run stops at the first streak that is too long, and passes when all of them would.
   */
  method Run(t: Template, sample: nat -> Measurement) returns (passed: bool, ms: seq<Measurement>)
    ensures 0 < |ms| <= Count(t) && ms == Samples(sample, |ms|)
    ensures |ms| < Count(t) ==> Trips(ms, t.failureLimit, |ms| - 1)
    ensures forall k | 0 <= k < |ms| - 1 :: !Trips(ms, t.failureLimit, k)
    ensures passed <==> Passes(Samples(sample, Count(t)), t.failureLimit)
  {
    ms := [];
    var streak := 0;
    for i := 0 to Count(t)
      invariant ms == Samples(sample, i) && streak == Streak(ms)
      invariant forall k | 0 <= k < i :: !Trips(ms, t.failureLimit, k)
    {
      var m := sample(i);
      StreakGrows(ms, m);
      TripsKept(ms, m, t.failureLimit);
      ms := ms + [m];
      if m.Fails() {
        streak := streak + 1;
        if streak > t.failureLimit {
          TripsLater(sample, t.failureLimit, i, Count(t));
          return false, ms;
        }
      } else {
        streak := 0;
      }
    }
    passed := !ms[|ms| - 1].Error?;
  }

  lemma {:induction false} StreakIsWindow(ms: seq<Measurement>, n: nat)
    requires n <= |ms|
    ensures Streak(ms) >= n <==> forall j | |ms| - n <= j < |ms| :: ms[j].Fails()
    decreases n
  {
    if n > 0 {
      StreakIsWindow(ms[..|ms| - 1], n - 1);
      assert forall j | 0 <= j < |ms| - 1 :: ms[..|ms| - 1][j] == ms[j];
    }
  }

  lemma {:induction false} StreakWithin(ms: seq<Measurement>)
    ensures Streak(ms) <= |ms|
    decreases |ms|
  {
    if ms != [] { StreakWithin(ms[..|ms| - 1]); }
  }

  /** With a limit, the measurements pass exactly when the last could be taken and no limit + 1 in a row fail. */
  lemma PassesIff(ms: seq<Measurement>, limit: nat)
    requires ms != []
    ensures Passes(ms, limit) <==>
            !ms[|ms| - 1].Error? && forall k | 0 <= k < |ms| :: !FailsPast(ms, k, limit)
  {
    forall k | 0 <= k < |ms| ensures Trips(ms, limit, k) <==> FailsPast(ms, k, limit) {
      StreakWithin(ms[..k + 1]);
      if k >= limit { StreakIsWindow(ms[..k + 1], limit + 1); }
    }
  }

  // More than limit measurements in a row fail, the last of them at k.
  predicate FailsPast(ms: seq<Measurement>, k: nat, limit: nat)
    requires k < |ms|
  {
    limit <= k && forall j | k - limit <= j <= k :: ms[j].Fails()
  }

  predicate AllFail(ms: seq<Measurement>) {
    forall i | 0 <= i < |ms| :: ms[i].Fails()
  }

  lemma {:induction false} AllFailStreak(ms: seq<Measurement>, n: nat)
    requires AllFail(ms) && n <= |ms|
    ensures Streak(ms[..n]) == n
  {
    if n > 0 {
      AllFailStreak(ms, n - 1);
      assert ms[..n][..n - 1] == ms[..n - 1];
    }
  }

  function Failing(n: nat): (ms: seq<Measurement>)
    ensures |ms| == n && forall i | 0 <= i < n :: ms[i] == Measured(false)
  {
    if n == 0 then [] else Failing(n - 1) + [Measured(false)]
  }

  /** The limits check is exact: a template can be passed by measurements that all fail unless it is refused. */
  lemma AcceptedIffAllFailingFails(t: Template)
    ensures Accepts(t) <==> forall ms | |ms| == Count(t) && AllFail(ms) :: !Passes(ms, t.failureLimit)
  {
    if Accepts(t) {
      forall ms | |ms| == Count(t) && AllFail(ms) ensures !Passes(ms, t.failureLimit) {
        var k := Count(t) - 1;
        AllFailStreak(ms, k + 1);
        assert Trips(ms, t.failureLimit, k);
      }
    } else {
      var ms := Failing(Count(t));
      forall k | 0 <= k < |ms| ensures !Trips(ms, t.failureLimit, k) {
        AllFailStreak(ms, k + 1);
      }
      assert Passes(ms, t.failureLimit) && AllFail(ms);
    }
  }
}
