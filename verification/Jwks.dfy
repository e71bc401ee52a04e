/**
 * The JWKS key cache: any number of callers share one cache behind a mutex and one fetch.
 *
 * Each critical section is one atomic action; the fetch itself runs between two of them. A
 * channel is a number, and `closes` counts how often each was closed.
 */
module Jwks {
  import opened Rollout

  type Key = string

  datatype Cache = Cache(keys: map<string, Key>, exp: int, lastRefresh: int, refreshing: bool, done: nat)

  datatype Limits = Limits(ttl: int, minRefresh: int)

  datatype Answer = Found(key: Key) | NoKey | FetchFailed

  /** What the first critical section of Key decides. */
  datatype Verdict = Answered(answer: Answer) | Await(channel: nat) | Fetch

  // The instants at which a section reads the clock, in order.
  datatype Instants = Instants(first: int, second: int, third: int)

  predicate InOrder(t: Instants, after: int) {
    after <= t.first <= t.second <= t.third
  }

  function Look(c: Cache, kid: string, t: Instants, limits: Limits): Verdict {
    if kid in c.keys && t.first < c.exp then Answered(Found(c.keys[kid]))
    else if t.second < c.exp && t.third < c.lastRefresh + limits.minRefresh then Answered(NoKey)
    else if c.refreshing then Await(c.done)
    else Fetch
  }

  // The last clock reading before a fetch starts.
  function StartTime(c: Cache, t: Instants): int {
    if t.second < c.exp then t.third else t.second
  }

  function Begun(c: Cache, channel: nat): Cache {
    c.(refreshing := true, done := channel)
  }

  function Settled(c: Cache, fetched: Option<map<string, Key>>, t: Instants, limits: Limits): Cache {
    var c' := c.(lastRefresh := t.first, refreshing := false);
    if fetched.Some? then c'.(keys := fetched.value, exp := t.second + limits.ttl) else c'
  }

  function Reply(c: Cache, kid: string, fetched: Option<map<string, Key>>): Answer {
    if kid in c.keys then Found(c.keys[kid]) else if fetched.None? then FetchFailed else NoKey
  }

  /** The cache as the callers share it: the two critical sections of Key. */
  class Shared {
    const limits: Limits
    var keys: map<string, Key>
    var exp: int
    var lastRefresh: int
    var refreshing: bool
    var done: nat

    constructor (limits: Limits, start: int)
      ensures this.limits == limits && C() == Cache(map[], start, start, false, 0)
    {
      this.limits := limits;
      keys, exp, lastRefresh, refreshing, done := map[], start, start, false, 0;
    }

    function C(): Cache
      reads this
    {
      Cache(keys, exp, lastRefresh, refreshing, done)
    }

    /** Decide under the mutex; the caller that is told to fetch has claimed the fetch. */
    method Decide(kid: string, t: Instants, channel: nat) returns (v: Verdict)
      modifies this
      ensures v == Look(old(C()), kid, t, limits)
      ensures C() == if v.Fetch? then Begun(old(C()), channel) else old(C())
    {
      if kid in keys && t.first < exp { return Answered(Found(keys[kid])); }
      if t.second < exp && t.third < lastRefresh + limits.minRefresh { return Answered(NoKey); }
      if refreshing { return Await(done); }
      refreshing, done := true, channel;
      return Fetch;
    }

    /** Publish the outcome of the fetch; the channel to close is the one the cache holds. */
    method Publish(kid: string, fetched: Option<map<string, Key>>, t: Instants) returns (answer: Answer, closing: nat)
      modifies this
      ensures C() == Settled(old(C()), fetched, t, limits)
      ensures closing == old(done) && answer == Reply(C(), kid, fetched)
    {
      lastRefresh := t.first;
      if fetched.Some? {
        keys := fetched.value;
        exp := t.second + limits.ttl;
      }
      refreshing := false;
      closing := done;
      if kid in keys { answer := Found(keys[kid]); }
      else if fetched.None? { answer := FetchFailed; }
      else { answer := NoKey; }
    }
  }

  // ---------- callers ----------

  datatype Caller =
    | Idle
    | AtLock(kid: string)                   // about to take the mutex
    | Waiting(kid: string, channel: nat)
    | Fetching(kid: string, own: nat)       // holds no lock; own is the channel it made
    | Returned(kid: string, answer: Answer)

  datatype State = State(
    cache: Cache,
    callers: map<nat, Caller>,
    made: nat,                              // channels 0..made exist
    closes: multiset<nat>,
    clock: int,                             // the latest reading
    starts: seq<int>)                       // when each fetch started

  datatype Action =
    | Call(who: nat, kid: string)
    | Enter(who: nat, t: Instants)
    | Finish(who: nat, fetched: Option<map<string, Key>>, t: Instants)
    | Wake(who: nat)

  function At(s: State, who: nat): Caller {
    if who in s.callers then s.callers[who] else Idle
  }

  predicate Enabled(s: State, a: Action) {
    var c := At(s, a.who);
    match a
    case Call(_, _) => c.Idle? || c.Returned?
    case Enter(_, t) => c.AtLock? && InOrder(t, s.clock)
    case Finish(_, _, t) => c.Fetching? && InOrder(t, s.clock)
    case Wake(_) => c.Waiting? && c.channel in s.closes
  }

  function Step(s: State, a: Action, limits: Limits): State
    requires Enabled(s, a)
  {
    var kid := match a case Call(_, kid) => kid case _ => At(s, a.who).kid;
    match a
    case Call(who, _) => s.(callers := s.callers[who := AtLock(kid)])
    case Enter(who, t) =>
      (match Look(s.cache, kid, t, limits)
       case Answered(r) => s.(callers := s.callers[who := Returned(kid, r)], clock := t.third)
       case Await(ch) => s.(callers := s.callers[who := Waiting(kid, ch)], clock := t.third)
       case Fetch =>
         s.(callers := s.callers[who := Fetching(kid, s.made)], clock := StartTime(s.cache, t), made := s.made + 1,
            cache := Begun(s.cache, s.made), starts := s.starts + [StartTime(s.cache, t)]))
    case Finish(who, fetched, t) =>
      var c' := Settled(s.cache, fetched, t, limits);
      s.(callers := s.callers[who := Returned(kid, Reply(c', kid, fetched))], cache := c',
         closes := s.closes + multiset{s.cache.done}, clock := t.third)
    case Wake(who) => s.(callers := s.callers[who := AtLock(kid)])
  }

  ghost predicate Runs(s: State, run: seq<Action>, limits: Limits)
    decreases |run|
  {
    run == [] || (Enabled(s, run[0]) && Runs(Step(s, run[0], limits), run[1..], limits))
  }

  function Exec(s: State, run: seq<Action>, limits: Limits): State
    requires Runs(s, run, limits)
    decreases |run|
  {
    if run == [] then s else Exec(Step(s, run[0], limits), run[1..], limits)
  }

  /** A new cache: nothing fetched, nobody waiting. */
  ghost predicate Init(s: State) {
    !s.cache.refreshing && s.callers == map[] && s.closes == multiset{} && s.made == 0 && s.starts == []
  }

  // ---------- one fetch, one owner, one close ----------

  ghost predicate OneFetch(s: State) {
    && (forall a, b | At(s, a).Fetching? && At(s, b).Fetching? :: a == b)
    && (s.cache.refreshing <==> exists a :: At(s, a).Fetching?)
  }

  /** A channel that exists is closed exactly once, or is the one the running fetch will close. */
  ghost predicate Channels(s: State) {
    && (forall ch | ch in s.closes :: ch < s.made && s.closes[ch] == 1)
    && (forall ch | 0 <= ch < s.made :: ch in s.closes || (s.cache.refreshing && ch == s.cache.done))
    && (s.cache.refreshing ==> s.cache.done < s.made && s.cache.done !in s.closes)
    && (forall a | At(s, a).Fetching? :: At(s, a).own == s.cache.done)
  }

  /** Whoever waits can already go on, or waits on a fetch that is running and will close its channel. */
  ghost predicate NobodyIsForgotten(s: State) {
    forall a | At(s, a).Waiting? ::
      || At(s, a).channel in s.closes
      || (s.cache.refreshing && At(s, a).channel == s.cache.done)
  }

  ghost predicate Inv(s: State) {
    OneFetch(s) && Channels(s) && NobodyIsForgotten(s)
  }

  lemma StepKeeps(s: State, a: Action, limits: Limits)
    requires Inv(s) && Enabled(s, a)
    ensures Inv(Step(s, a, limits))
    ensures a.Finish? ==> s.cache.done == At(s, a.who).own && s.cache.done !in s.closes
  {
    var s' := Step(s, a, limits);
    assert forall b | b != a.who :: At(s', b) == At(s, b);
    if a.Finish? {
      assert At(s, a.who).Fetching?;
      assert forall b :: !At(s', b).Fetching?;
    } else if s'.cache != s.cache {
      assert At(s', a.who).Fetching?;
      assert !s.cache.refreshing;
    } else {
      assert forall b :: At(s', b).Fetching? <==> At(s, b).Fetching?;
    }
  }

  /** Over every interleaving of any number of callers. */
  lemma {:induction false} RunKeeps(s: State, run: seq<Action>, limits: Limits)
    requires Inv(s) && Runs(s, run, limits)
    ensures Inv(Exec(s, run, limits))
    decreases |run|
  {
    if run != [] {
      StepKeeps(s, run[0], limits);
      RunKeeps(Step(s, run[0], limits), run[1..], limits);
    }
  }

  lemma InitKeeps(s: State)
    requires Init(s)
    ensures Inv(s)
  {
  }

  /** From every reachable state with a waiter, the waiter can go on, or one action of another caller lets it. */
  lemma WaiterGoesOn(s: State, who: nat, fetched: Option<map<string, Key>>, limits: Limits)
    requires Inv(s) && At(s, who).Waiting?
    ensures Enabled(s, Wake(who)) ||
            exists owner :: Enabled(s, Finish(owner, fetched, Instants(s.clock, s.clock, s.clock)))
                            && owner != who
                            && Enabled(Step(s, Finish(owner, fetched, Instants(s.clock, s.clock, s.clock)), limits), Wake(who))
  {
    if At(s, who).channel !in s.closes {
      var owner :| At(s, owner).Fetching?;
      var now := Instants(s.clock, s.clock, s.clock);
      var s' := Step(s, Finish(owner, fetched, now), limits);
      assert At(s', who) == At(s, who) && s.cache.done in s'.closes;
      assert Enabled(s, Finish(owner, fetched, now)) && Enabled(s', Wake(who));
    }
  }

  // ---------- what is answered ----------

  ghost predicate Delivered(run: seq<Action>, kid: string, key: Key) {
    exists i :: 0 <= i < |run| && run[i].Finish? && run[i].fetched.Some?
                && kid in run[i].fetched.value && run[i].fetched.value[kid] == key
  }

  /** Every cached key and every answered key was delivered under its own id by some fetch. */
  ghost predicate Sourced(s: State, past: seq<Action>) {
    && (forall kid <- s.cache.keys :: Delivered(past, kid, s.cache.keys[kid]))
    && (forall a | At(s, a).Returned? && At(s, a).answer.Found? :: Delivered(past, At(s, a).kid, At(s, a).answer.key))
  }

  lemma DeliveredStays(past: seq<Action>, a: Action)
    ensures forall kid, key :: Delivered(past, kid, key) ==> Delivered(past + [a], kid, key)
  {
    forall kid, key | Delivered(past, kid, key)
      ensures Delivered(past + [a], kid, key)
    {
      var i :| 0 <= i < |past| && past[i].Finish? && past[i].fetched.Some?
               && kid in past[i].fetched.value && past[i].fetched.value[kid] == key;
      assert (past + [a])[i] == past[i];
    }
  }

  lemma StepSourced(s: State, past: seq<Action>, a: Action, limits: Limits)
    requires Sourced(s, past) && Enabled(s, a)
    ensures Sourced(Step(s, a, limits), past + [a])
  {
    var s', all := Step(s, a, limits), past + [a];
    DeliveredStays(past, a);
    assert all[|past|] == a;
    assert forall b | b != a.who :: At(s', b) == At(s, b);
    assert forall kid <- s'.cache.keys :: Delivered(all, kid, s'.cache.keys[kid]);
  }

  lemma {:induction false} RunSourced(s: State, past: seq<Action>, run: seq<Action>, limits: Limits)
    requires Sourced(s, past) && Runs(s, run, limits)
    ensures Sourced(Exec(s, run, limits), past + run)
    decreases |run|
  {
    if run == [] {
      assert past + run == past;
    } else {
      StepSourced(s, past, run[0], limits);
      RunSourced(Step(s, run[0], limits), past + [run[0]], run[1..], limits);
      assert past + run == (past + [run[0]]) + run[1..];
    }
  }

  // ---------- what the cache holds ----------

  predicate Delivers(a: Action) {
    a.Finish? && a.fetched.Some?
  }

  /** The i-th action of the run is its last fetch that delivered. */
  predicate LastDelivery(run: seq<Action>, i: nat) {
    i < |run| && Delivers(run[i]) && forall j | i < j < |run| :: !Delivers(run[j])
  }

  predicate LastFinish(run: seq<Action>, i: nat) {
    i < |run| && run[i].Finish? && forall j | i < j < |run| :: !run[j].Finish?
  }

  lemma {:induction false} NothingDelivered(s: State, run: seq<Action>, limits: Limits)
    requires Runs(s, run, limits) && forall j | 0 <= j < |run| :: !Delivers(run[j])
    ensures Exec(s, run, limits).cache.keys == s.cache.keys && Exec(s, run, limits).cache.exp == s.cache.exp
    decreases |run|
  {
    if run != [] { NothingDelivered(Step(s, run[0], limits), run[1..], limits); }
  }

  /** After every interleaving the cache holds what the last fetch that delivered brought, and expires ttl after it. */
  lemma {:induction false} CacheIsLastDelivery(s: State, run: seq<Action>, limits: Limits, i: nat)
    requires Runs(s, run, limits) && LastDelivery(run, i)
    ensures var c := Exec(s, run, limits).cache;
            c.keys == run[i].fetched.value && c.exp == run[i].t.second + limits.ttl
    decreases |run|
  {
    if i == 0 {
      NothingDelivered(Step(s, run[0], limits), run[1..], limits);
    } else {
      CacheIsLastDelivery(Step(s, run[0], limits), run[1..], limits, i - 1);
    }
  }

  lemma {:induction false} NothingFinished(s: State, run: seq<Action>, limits: Limits)
    requires Runs(s, run, limits) && forall j | 0 <= j < |run| :: !run[j].Finish?
    ensures Exec(s, run, limits).cache.lastRefresh == s.cache.lastRefresh
    decreases |run|
  {
    if run != [] { NothingFinished(Step(s, run[0], limits), run[1..], limits); }
  }

  /** The refresh interval counts from the last fetch that finished, failed or not. */
  lemma {:induction false} RefreshIsLastFinish(s: State, run: seq<Action>, limits: Limits, i: nat)
    requires Runs(s, run, limits) && LastFinish(run, i)
    ensures Exec(s, run, limits).cache.lastRefresh == run[i].t.first
    decreases |run|
  {
    if i == 0 {
      NothingFinished(Step(s, run[0], limits), run[1..], limits);
    } else {
      RefreshIsLastFinish(Step(s, run[0], limits), run[1..], limits, i - 1);
    }
  }

  /**
   * A caller at the lock, after any interleaving: it is answered with a key exactly when the last
   * delivery has its id and is not over; it is refused exactly when the delivery is not over, lacks
   * the id, and the last fetch is too recent; else it waits for the fetch that runs, or starts one.
   */
  lemma EnterAnswers(s: State, run: seq<Action>, limits: Limits, i: nat, l: nat, who: nat, t: Instants)
    requires Inv(s) && Runs(s, run, limits) && LastDelivery(run, i) && LastFinish(run, l)
    requires Enabled(Exec(s, run, limits), Enter(who, t))
    ensures var x := Exec(s, run, limits);
            var kid, keys, over, recent := At(x, who).kid, run[i].fetched.value, run[i].t.second + limits.ttl, run[l].t.first;
            var now := At(Step(x, Enter(who, t), limits), who);
            && (forall key :: now == Returned(kid, Found(key)) <==> kid in keys && keys[kid] == key && t.first < over)
            && (now == Returned(kid, NoKey) <==>
                !(kid in keys && t.first < over) && t.second < over && t.third < recent + limits.minRefresh)
            && now != Returned(kid, FetchFailed)
            && (now.Waiting? ==> exists owner :: owner != who && At(x, owner).Fetching?)
            && (now.Fetching? ==> forall other :: !At(x, other).Fetching?)
  {
    CacheIsLastDelivery(s, run, limits, i);
    RefreshIsLastFinish(s, run, limits, l);
    RunKeeps(s, run, limits);
  }

  /** The caller that fetched: a delivery answers it; a failure leaves it what was delivered before, over or not. */
  lemma FinishAnswers(s: State, who: nat, fetched: Option<map<string, Key>>, t: Instants, limits: Limits)
    requires Enabled(s, Finish(who, fetched, t))
    ensures var s' := Step(s, Finish(who, fetched, t), limits);
            var kid := At(s, who).kid;
            match fetched
            case Some(keys) => At(s', who) == Returned(kid, if kid in keys then Found(keys[kid]) else NoKey)
            case None =>
              && At(s', who) == Returned(kid, if kid in s.cache.keys then Found(s.cache.keys[kid]) else FetchFailed)
              && s'.cache.keys == s.cache.keys && s'.cache.exp == s.cache.exp
  {
  }

  /** A waiter whose fetch delivered its id and that is let in before the delivery is over gets the key, whoever acts in between. */
  lemma WaiterIsServed(s: State, run: seq<Action>, limits: Limits, i: nat, who: nat, t: Instants)
    requires Inv(s) && At(s, who).Waiting? && Runs(s, run, limits) && LastDelivery(run, i)
    requires forall j | 0 <= j < |run| && run[j].who == who :: run[j].Wake?
    requires At(s, who).kid in run[i].fetched.value
    requires Enabled(Exec(s, run, limits), Enter(who, t)) && t.first < run[i].t.second + limits.ttl
    ensures At(Step(Exec(s, run, limits), Enter(who, t), limits), who)
              == Returned(At(s, who).kid, Found(run[i].fetched.value[At(s, who).kid]))
  {
    CacheIsLastDelivery(s, run, limits, i);
    AsksTheSame(s, run, limits, who);
  }

  lemma {:induction false} AsksTheSame(s: State, run: seq<Action>, limits: Limits, who: nat)
    requires Runs(s, run, limits) && (At(s, who).Waiting? || At(s, who).AtLock?)
    requires forall j | 0 <= j < |run| && run[j].who == who :: run[j].Wake?
    ensures var x := At(Exec(s, run, limits), who); (x.Waiting? || x.AtLock?) && x.kid == At(s, who).kid
    decreases |run|
  {
    if run != [] { AsksTheSame(Step(s, run[0], limits), run[1..], limits, who); }
  }

  // ---------- the rate limit ----------

  /** The expiry covers the refresh interval, so the two guards together hold back the next fetch. */
  predicate Guarded(c: Cache, limits: Limits) {
    c.exp >= c.lastRefresh + limits.minRefresh
  }

  /** Every fetch of the run leaves the cache guarded. */
  ghost predicate AllGuarded(s: State, run: seq<Action>, limits: Limits)
    requires Runs(s, run, limits)
    decreases |run|
  {
    run != [] ==>
      && (run[0].Finish? ==> Guarded(Step(s, run[0], limits).cache, limits))
      && AllGuarded(Step(s, run[0], limits), run[1..], limits)
  }

  predicate Spaced(starts: seq<int>, gap: int) {
    forall i | 0 < i < |starts| :: starts[i] >= starts[i - 1] + gap
  }

  ghost predicate Throttled(s: State, limits: Limits) {
    && Spaced(s.starts, limits.minRefresh)
    && (s.starts != [] ==>
          && s.starts[|s.starts| - 1] <= s.clock
          && (!s.cache.refreshing ==> Guarded(s.cache, limits) && s.starts[|s.starts| - 1] <= s.cache.lastRefresh))
  }

  lemma StepThrottled(s: State, a: Action, limits: Limits)
    requires Inv(s) && Throttled(s, limits) && Enabled(s, a)
    requires a.Finish? ==> Guarded(Step(s, a, limits).cache, limits)
    ensures Throttled(Step(s, a, limits), limits)
  {
  }

  lemma {:induction false} RunThrottled(s: State, run: seq<Action>, limits: Limits)
    requires Inv(s) && Throttled(s, limits) && Runs(s, run, limits) && AllGuarded(s, run, limits)
    ensures Throttled(Exec(s, run, limits), limits)
    decreases |run|
  {
    if run != [] {
      StepKeeps(s, run[0], limits);
      StepThrottled(s, run[0], limits);
      RunThrottled(Step(s, run[0], limits), run[1..], limits);
    }
  }

  lemma {:induction false} SpanAtLeast(starts: seq<int>, gap: int, n: nat)
    requires Spaced(starts, gap) && n < |starts|
    ensures starts[n] - starts[0] >= n * gap
  {
    if n > 0 {
      SpanAtLeast(starts, gap, n - 1);
      assert starts[n] >= starts[n - 1] + gap;
      assert n * gap == (n - 1) * gap + gap;
    }
  }

  predicate AllSucceed(run: seq<Action>) {
    forall i | 0 <= i < |run| :: run[i].Finish? ==> run[i].fetched.Some?
  }

  lemma {:induction false} SuccessGuards(s: State, run: seq<Action>, limits: Limits)
    requires Runs(s, run, limits) && AllSucceed(run) && limits.ttl >= limits.minRefresh
    ensures AllGuarded(s, run, limits)
    decreases |run|
  {
    if run != [] { SuccessGuards(Step(s, run[0], limits), run[1..], limits); }
  }

  /** k fetches that succeed span at least (k - 1) refresh intervals, whoever asks for what and when. */
  lemma FetchesAreSpaced(s: State, run: seq<Action>, limits: Limits)
    requires Init(s) && Runs(s, run, limits) && AllSucceed(run) && limits.ttl >= limits.minRefresh
    ensures var starts := Exec(s, run, limits).starts;
            Spaced(starts, limits.minRefresh)
            && (starts != [] ==> starts[|starts| - 1] - starts[0] >= (|starts| - 1) * limits.minRefresh)
  {
    InitKeeps(s);
    SuccessGuards(s, run, limits);
    RunThrottled(s, run, limits);
    var starts := Exec(s, run, limits).starts;
    if starts != [] { SpanAtLeast(starts, limits.minRefresh, |starts| - 1); }
  }

  /** Between fetches the limit holds for every caller exactly when the expiry covers it, or it is over. */
  lemma LimitHoldsIff(s: State, limits: Limits)
    requires !s.cache.refreshing
    ensures (forall kid: string, t | InOrder(t, s.clock) && Look(s.cache, kid, t, limits).Fetch? ::
               StartTime(s.cache, t) >= s.cache.lastRefresh + limits.minRefresh)
            <==> (Guarded(s.cache, limits) || s.clock >= s.cache.lastRefresh + limits.minRefresh)
  {
    if !Guarded(s.cache, limits) && s.clock < s.cache.lastRefresh + limits.minRefresh {
      var now := if s.clock < s.cache.exp then s.cache.exp else s.clock;
      assert InOrder(Instants(now, now, now), s.clock) && Look(s.cache, "", Instants(now, now, now), limits).Fetch?;
    }
  }

  // ---------- failing fetches ----------

  /** One caller that asks n times while every fetch fails. */
  function Retries(kid: string, now: int, n: nat): (run: seq<Action>)
    ensures |run| == 3 * n
  {
    if n == 0 then [] else
      var t := Instants(now, now, now);
      [Call(0, kid), Enter(0, t), Finish(0, None, t)] + Retries(kid, now, n - 1)
  }

  function Repeated(now: int, n: nat): (r: seq<int>)
    ensures |r| == n && forall i | 0 <= i < n :: r[i] == now
  {
    if n == 0 then [] else [now] + Repeated(now, n - 1)
  }

  ghost predicate Expired(s: State, now: int) {
    && !s.cache.refreshing && s.clock == now && s.cache.exp <= now
    && (At(s, 0).Idle? || At(s, 0).Returned?)
  }

  lemma OneRetry(s: State, kid: string, now: int, limits: Limits)
    requires Expired(s, now)
    ensures var t := Instants(now, now, now);
            && Enabled(s, Call(0, kid))
            && var s1 := Step(s, Call(0, kid), limits);
            && Enabled(s1, Enter(0, t))
            && var s2 := Step(s1, Enter(0, t), limits);
            && Enabled(s2, Finish(0, None, t))
            && var s3 := Step(s2, Finish(0, None, t), limits);
            && Expired(s3, now) && s3.starts == s.starts + [now]
  {
  }

  /** A failing fetch does not move the expiry: with an expired cache, any number of fetches start at one instant. */
  lemma {:induction false} FailuresAreNotThrottled(s: State, kid: string, now: int, n: nat, limits: Limits)
    requires Expired(s, now)
    ensures Runs(s, Retries(kid, now, n), limits)
    ensures Exec(s, Retries(kid, now, n), limits).starts == s.starts + Repeated(now, n)
    decreases n
  {
    var run := Retries(kid, now, n);
    if n > 0 {
      OneRetry(s, kid, now, limits);
      var s1 := Step(s, run[0], limits);
      var s2 := Step(s1, run[1], limits);
      var s3 := Step(s2, run[2], limits);
      FailuresAreNotThrottled(s3, kid, now, n - 1, limits);
      assert run[1..][1..][1..] == Retries(kid, now, n - 1);
      assert run[1..][0] == run[1] && run[1..][1..][0] == run[2];
      assert Runs(s2, run[1..][1..], limits);
      assert Runs(s1, run[1..], limits);
      assert Exec(s2, run[1..][1..], limits) == Exec(s3, Retries(kid, now, n - 1), limits);
      assert Exec(s1, run[1..], limits) == Exec(s2, run[1..][1..], limits);
      assert (s.starts + [now]) + Repeated(now, n - 1) == s.starts + Repeated(now, n);
    }
  }
}
