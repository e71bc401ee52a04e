/** Absence of declared targets, judged over the whole tick history, and streaks of drift. */
module Reaper {
  import F = FailStreak

  // ---------- what one key goes through ----------

  /** What a call of its repository says about a key. */
  datatype Signal = Present | Missing | LoadError | Forgotten

  /** Declared since it was last forgotten. */
  predicate Known(h: seq<Signal>) {
    h != [] && match h[|h| - 1] case Present => true case Forgotten => false case _ => Known(h[..|h| - 1])
  }

  /** Consecutive error-free ticks, up to now, without the key. */
  function Absence(h: seq<Signal>): nat {
    if h == [] || !h[|h| - 1].Missing? then 0 else 1 + Absence(h[..|h| - 1])
  }

  /** Where the present absence began: just after the key was last declared or forgotten. */
  function Since(h: seq<Signal>): (i: nat)
    ensures i <= |h|
    ensures forall k | i <= k < |h| :: h[k].Missing? || h[k].LoadError?
  {
    if h == [] then 0
    else if h[|h| - 1].Present? || h[|h| - 1].Forgotten? then |h|
    else Since(h[..|h| - 1])
  }

  function Enough(after: int): (n: nat)
    ensures n >= 1
  {
    if after > 1 then after else 1
  }

  /** Some run of absences since then was already long enough. */
  ghost predicate Judged(h: seq<Signal>, after: int) {
    Known(h) && exists i :: Since(h) < i <= |h| && Absence(h[..i]) >= Enough(after)
  }

  /**
   * The verdict: the key was declared, has now been missing for `after` error-free ticks in a row,
   * and no earlier run of this same absence had that length.
   */
  ghost predicate Verdict(h: seq<Signal>, after: int) {
    && h != [] && h[|h| - 1].Missing?
    && Known(h) && Absence(h) == Enough(after)
    && forall i | Since(h) < i < |h| :: Absence(h[..i]) < Enough(after)
  }

  /** Two verdicts on a key are separated by a tick that declared it, or by its being forgotten. */
  lemma OneVerdictPerAbsence(h: seq<Signal>, i: nat, j: nat, after: int)
    requires i < j <= |h| && Verdict(h[..i], after) && Verdict(h[..j], after)
    ensures exists k :: i <= k < j && (h[k].Present? || h[k].Forgotten?)
  {
    var g := h[..j];
    assert g[..i] == h[..i] && g[..i][i - 1] == g[i - 1];
    assert Since(g) >= i;
    SinceIsChange(g);
    assert Since(g) != i;
    assert h[Since(g) - 1] == g[Since(g) - 1];
  }

  lemma {:induction false} SinceIsChange(h: seq<Signal>)
    ensures Since(h) > 0 ==> h[Since(h) - 1].Present? || h[Since(h) - 1].Forgotten?
    decreases |h|
  {
    if h != [] && !h[|h| - 1].Present? && !h[|h| - 1].Forgotten? { SinceIsChange(h[..|h| - 1]); }
  }

  // ---------- the counters of one key ----------

  datatype Cell = Cell(seen: bool, absent: nat, fired: bool)

  const UNSEEN := Cell(false, 0, false)

  function Enters(c: Cell, e: Signal, after: int): (Cell, bool) {
    match e
    case Forgotten => (UNSEEN, false)
    case LoadError => (if c.seen then c.(absent := 0) else c, false)
    case Present => (if c.seen then Cell(true, 0, false) else c.(seen := true), false)
    case Missing =>
      if !c.seen then (c, false)
      else
        var n := c.absent + 1;
        if n >= after && !c.fired then (Cell(true, n, true), true) else (Cell(true, n, c.fired), false)
  }

  ghost function After(h: seq<Signal>, after: int): Cell {
    if Known(h) then Cell(true, Absence(h), Judged(h, after)) else UNSEEN
  }

  lemma {:induction false} AbsenceGrows(h: seq<Signal>, e: Signal)
    ensures Absence(h + [e]) == if e.Missing? then Absence(h) + 1 else 0
    ensures Known(h + [e]) == (e.Present? || (!e.Forgotten? && Known(h)))
    ensures Since(h + [e]) == if e.Present? || e.Forgotten? then |h| + 1 else Since(h)
  {
    assert (h + [e])[..|h|] == h;
  }

  lemma JudgedGrows(h: seq<Signal>, e: Signal, after: int)
    ensures Judged(h + [e], after) ==
            (!e.Present? && !e.Forgotten? && Known(h)
             && (Judged(h, after) || (e.Missing? && Absence(h) + 1 >= Enough(after))))
  {
    AbsenceGrows(h, e);
    if !e.Present? && !e.Forgotten? && Known(h) {
      JudgedStays(h, e, after);
      JudgedComes(h, e, after);
    }
  }

  lemma JudgedStays(h: seq<Signal>, e: Signal, after: int)
    requires Since(h + [e]) == Since(h) && Known(h + [e])
    ensures Judged(h, after) ==> Judged(h + [e], after)
    ensures Absence(h + [e]) >= Enough(after) ==> Judged(h + [e], after)
  {
    var g := h + [e];
    assert g[..|g|] == g;
    if Judged(h, after) {
      var i :| Since(h) < i <= |h| && Absence(h[..i]) >= Enough(after);
      assert g[..i] == h[..i];
    }
  }

  lemma JudgedComes(h: seq<Signal>, e: Signal, after: int)
    requires Since(h + [e]) == Since(h) && Known(h)
    ensures Judged(h + [e], after) ==> Judged(h, after) || Absence(h + [e]) >= Enough(after)
  {
    var g := h + [e];
    assert g[..|g|] == g;
    if Judged(g, after) {
      var i :| Since(g) < i <= |g| && Absence(g[..i]) >= Enough(after);
      assert i <= |h| ==> g[..i] == h[..i];
    }
  }

  /** Counting agrees with the history: same counters, same verdict. */
  lemma EntersIsHistory(h: seq<Signal>, e: Signal, after: int)
    ensures Enters(After(h, after), e, after) == (After(h + [e], after), Verdict(h + [e], after))
  {
    AbsenceGrows(h, e);
    JudgedGrows(h, e, after);
    VerdictIsFirst(h, e, after);
  }

  lemma VerdictIsFirst(h: seq<Signal>, e: Signal, after: int)
    ensures Verdict(h + [e], after) ==
            (e.Missing? && Known(h) && Absence(h) + 1 >= Enough(after) && !Judged(h, after))
  {
    var g := h + [e];
    AbsenceGrows(h, e);
    assert forall i | 0 <= i <= |h| :: g[..i] == h[..i];
    assert h[..|h|] == h;
    if e.Missing? && Known(h) {
      if Judged(h, after) {
        var i :| Since(h) < i <= |h| && Absence(h[..i]) >= Enough(after);
        assert Absence(g[..i]) >= Enough(after);
      }
      if Absence(h) + 1 >= Enough(after) && !Judged(h, after) {
        AbsenceWithin(h);
        assert Absence(h) > 0 ==> Absence(h[..|h|]) < Enough(after);
        forall i | Since(g) < i < |g| ensures Absence(g[..i]) < Enough(after) {
          assert Absence(h[..i]) < Enough(after);
        }
      }
    }
  }

  lemma {:induction false} AbsenceWithin(h: seq<Signal>)
    ensures Known(h) && Absence(h) > 0 ==> Since(h) < |h|
  {
  }

  // ---------- all repositories ----------

  /** Keys are full names, "repo/path". */
  datatype Call = Observe(repo: string, keys: set<string>, loadErr: bool) | Forget(repo: string, key: string)

  /** What a call of the key's own repository tells about it. */
  function Told(c: Call, key: string): seq<Signal> {
    match c
    case Observe(_, keys, loadErr) => [if loadErr then LoadError else if key in keys then Present else Missing]
    case Forget(_, k) => if k == key then [Forgotten] else []
  }

  function Signals(calls: seq<Call>, repo: string, key: string): seq<Signal> {
    if calls == [] then []
    else
      var c := calls[|calls| - 1];
      Signals(calls[..|calls| - 1], repo, key) + if c.repo == repo then Told(c, key) else []
  }

  predicate Mentions(c: Call, key: string) {
    match c
    case Observe(_, keys, loadErr) => !loadErr && key in keys
    case Forget(_, k) => k == key
  }

  /** No other repository ever names this key. */
  predicate Owned(calls: seq<Call>, repo: string, key: string) {
    forall i | 0 <= i < |calls| && calls[i].repo != repo :: !Mentions(calls[i], key)
  }

  datatype State = State(seen: map<string, set<string>>, absent: map<string, nat>, fired: set<string>)

  function Seen(s: State, repo: string): set<string> {
    if repo in s.seen then s.seen[repo] else {}
  }

  function CellOf(s: State, repo: string, key: string): Cell {
    Cell(key in Seen(s, repo), if key in s.absent then s.absent[key] else 0, key in s.fired)
  }

  /** One call as each repository's cells see it. */
  ghost predicate Steps(s: State, t: State, c: Call, after: int) {
    && (forall key | Told(c, key) != [] :: CellOf(t, c.repo, key) == Enters(CellOf(s, c.repo, key), Told(c, key)[0], after).0)
    && (forall key | Told(c, key) == [] :: CellOf(t, c.repo, key) == CellOf(s, c.repo, key))
    && (forall repo, key | repo != c.repo && key !in Seen(s, c.repo) && !Mentions(c, key) ::
          CellOf(t, repo, key) == CellOf(s, repo, key))
    && (forall repo | repo != c.repo :: Seen(t, repo) == Seen(s, repo))
  }

  /** The counters of every key that only one repository names are what its history says. */
  ghost predicate Agrees(s: State, calls: seq<Call>, after: int) {
    && (forall repo, key | Owned(calls, repo, key) :: CellOf(s, repo, key) == After(Signals(calls, repo, key), after))
    && (forall repo, key | key in Seen(s, repo) :: Declared(calls, repo, key))
  }

  ghost predicate Declared(calls: seq<Call>, repo: string, key: string) {
    exists i :: 0 <= i < |calls| && calls[i].repo == repo && Mentions(calls[i], key)
  }

  lemma SignalsGrow(calls: seq<Call>, c: Call, repo: string, key: string)
    ensures Signals(calls + [c], repo, key) == Signals(calls, repo, key) + if c.repo == repo then Told(c, key) else []
    ensures Owned(calls + [c], repo, key) <==> Owned(calls, repo, key) && (c.repo != repo ==> !Mentions(c, key))
    ensures Declared(calls + [c], repo, key) <==> Declared(calls, repo, key) || (c.repo == repo && Mentions(c, key))
  {
    var all := calls + [c];
    assert all[..|calls|] == calls && all[|calls|] == c;
    assert forall i | 0 <= i < |calls| :: all[i] == calls[i];
    if Declared(calls, repo, key) {
      var i :| 0 <= i < |calls| && calls[i].repo == repo && Mentions(calls[i], key);
      assert all[i].repo == repo && Mentions(all[i], key);
    }
  }

  lemma CellAgrees(s: State, t: State, calls: seq<Call>, c: Call, after: int, repo: string, key: string)
    requires Agrees(s, calls, after) && Steps(s, t, c, after) && Owned(calls + [c], repo, key)
    ensures CellOf(t, repo, key) == After(Signals(calls + [c], repo, key), after)
  {
    var h := Signals(calls, repo, key);
    SignalsGrow(calls, c, repo, key);
    if c.repo == repo {
      if Told(c, key) == [] {
        assert h + [] == h;
      } else {
        assert Told(c, key) == [Told(c, key)[0]];
        EntersIsHistory(h, Told(c, key)[0], after);
      }
    } else {
      assert h + [] == h;
      assert key in Seen(s, c.repo) ==> Declared(calls, c.repo, key);
    }
  }

  lemma StepAgrees(s: State, t: State, calls: seq<Call>, c: Call, after: int)
    requires Agrees(s, calls, after) && Steps(s, t, c, after)
    ensures Agrees(t, calls + [c], after)
  {
    forall repo, key | Owned(calls + [c], repo, key)
      ensures CellOf(t, repo, key) == After(Signals(calls + [c], repo, key), after)
    {
      CellAgrees(s, t, calls, c, after, repo, key);
    }
    forall repo, key | key in Seen(t, repo) ensures Declared(calls + [c], repo, key) {
      SignalsGrow(calls, c, repo, key);
      assert CellOf(t, repo, key).seen;
      if repo == c.repo && !Mentions(c, key) { assert CellOf(s, repo, key).seen; }
    }
  }

  /** The verdict a call gives on a key that only its repository names is the history's verdict. */
  lemma VerdictAgrees(s: State, calls: seq<Call>, c: Call, after: int, key: string)
    requires Agrees(s, calls, after) && Owned(calls, c.repo, key) && Told(c, key) != []
    ensures Enters(CellOf(s, c.repo, key), Told(c, key)[0], after).1 <==> Verdict(Signals(calls + [c], c.repo, key), after)
  {
    SignalsGrow(calls, c, c.repo, key);
    assert Told(c, key) == [Told(c, key)[0]];
    EntersIsHistory(Signals(calls, c.repo, key), Told(c, key)[0], after);
  }

  predicate Under(repo: string, keys: set<string>) {
    forall k | k in keys :: repo + "/" <= k
  }

  predicate Nested(a: string, b: string) {
    a + "/" <= b || b + "/" <= a
  }

  /** Repositories whose names are not nested in each other never name each other's keys. */
  lemma SeparateNames(calls: seq<Call>, repo: string, key: string)
    requires repo + "/" <= key
    requires forall i | 0 <= i < |calls| ::
               Under(calls[i].repo, if calls[i].Observe? then calls[i].keys else {calls[i].key})
               && (calls[i].repo != repo ==> !Nested(calls[i].repo, repo))
    ensures Owned(calls, repo, key)
  {
    forall i | 0 <= i < |calls| && calls[i].repo != repo ensures !Mentions(calls[i], key) {
      if Mentions(calls[i], key) {
        assert F.OwnKey(calls[i].repo, key) && F.OwnKey(repo, key);
        F.KeysSharedIff(calls[i].repo, repo);
      }
    }
  }

  // ---------- the reaper itself ----------

  datatype Finding = Finding(repo: string, key: string, ticks: nat)

  class Reaper {
    const after: int
    var seen: map<string, set<string>>
    var absent: map<string, nat>
    var fired: set<string>
    ghost var calls: seq<Call>

    constructor (after: int)
      ensures Valid() && this.after == after && calls == []
    {
      this.after := after;
      seen, absent, fired, calls := map[], map[], {}, [];
    }

    function S(): State
      reads this
    {
      State(seen, absent, fired)
    }

    ghost predicate Valid()
      reads this
    {
      Agrees(S(), calls, after)
    }

    /**
     * One tick of a repository. Each target it once declared and now lacks is reported when the
     * history says so, once, with the number of ticks it was missing.
     */
    method Observe(repo: string, paths: seq<string>, loadErr: bool) returns (out: seq<Finding>)
      requires Valid()
      modifies this
      ensures var c := Call.Observe(repo, KeysOf(repo, paths), loadErr);
              && Valid() && calls == old(calls) + [c]
              && (forall key | Owned(old(calls), repo, key) ::
                    Names(out, key) <==> Verdict(Signals(calls, repo, key), after))
              && Reported(S(), repo, out)
    {
      ghost var s, c := S(), Call.Observe(repo, KeysOf(repo, paths), loadErr);
      out := Visit(repo, paths, loadErr);
      StepAgrees(s, S(), calls, c, after);
      forall key | Owned(calls, repo, key) ensures Names(out, key) <==> Verdict(Signals(calls + [c], repo, key), after) {
        VerdictAgrees(s, calls, c, after, key);
      }
      calls := calls + [c];
    }

    method Visit(repo: string, paths: seq<string>, loadErr: bool) returns (out: seq<Finding>)
      modifies this`seen, this`absent, this`fired
      ensures var c := Call.Observe(repo, KeysOf(repo, paths), loadErr);
              && Steps(old(S()), S(), c, after)
              && (forall key :: Names(out, key) <==> Enters(CellOf(old(S()), repo, key), Told(c, key)[0], after).1)
              && Reported(S(), repo, out)
    {
      ghost var s, c := S(), Call.Observe(repo, KeysOf(repo, paths), loadErr);
      if loadErr {
        Unlearn(repo);
        out := [];
        LoadErrorSteps(s, S(), c, after);
      } else {
        var present := Present(repo, paths);
        out := Sweep(repo, present);
        seen := seen[repo := (if repo in seen then seen[repo] else {}) + present];
        SweepSteps(s, S(), c, after);
      }
    }

    // A load that failed says nothing about what exists.
    method Unlearn(repo: string)
      modifies this`absent
      ensures forall k :: Tally(S(), k) == if k in Seen(old(S()), repo) then (0, k in fired) else Tally(old(S()), k)
    {
      var rest := if repo in seen then seen[repo] else {};
      while rest != {}
        invariant rest <= Seen(S(), repo)
        invariant forall k :: Tally(S(), k) == if k in Seen(S(), repo) - rest then (0, k in fired) else Tally(old(S()), k)
      {
        var k :| k in rest;
        rest := rest - {k};
        absent := absent - {k};
      }
    }

    method Present(repo: string, paths: seq<string>) returns (present: set<string>)
      ensures present == KeysOf(repo, paths)
    {
      present := {};
      for i := 0 to |paths|
        invariant present == KeysOf(repo, paths[..i])
      {
        assert paths[..i + 1][..i] == paths[..i];
        present := present + {repo + "/" + paths[i]};
      }
      assert paths[..|paths|] == paths;
    }

    /** Judge every target the repository was ever seen to declare. */
    method Sweep(repo: string, present: set<string>) returns (out: seq<Finding>)
      modifies this`absent, this`fired
      ensures forall k :: Tally(S(), k) ==
                if k in Seen(old(S()), repo) then Tallied(Tally(old(S()), k), k in present, after) else Tally(old(S()), k)
      ensures forall k :: Names(out, k) <==>
                k in Seen(old(S()), repo) && Due(Tally(old(S()), k), k in present, after)
      ensures Reported(S(), repo, out)
    {
      out := [];
      var all := if repo in seen then seen[repo] else {};
      var rest := all;
      while rest != {}
        invariant rest <= all
        invariant forall k :: Tally(S(), k) ==
                    if k in all - rest then Tallied(Tally(old(S()), k), k in present, after) else Tally(old(S()), k)
        invariant forall k :: Names(out, k) <==> k in all - rest && Due(Tally(old(S()), k), k in present, after)
        invariant Reported(S(), repo, out)
      {
        var k :| k in rest;
        ghost var s := S();
        var due, ticks := JudgeOne(k, k in present);
        if due {
          ReportedMore(s, S(), repo, out, k, ticks);
          out := out + [Finding(repo, k, ticks)];
        }
        rest := rest - {k};
      }
    }

    method JudgeOne(key: string, here: bool) returns (due: bool, ticks: nat)
      modifies this`absent, this`fired
      ensures due == Due(Tally(old(S()), key), here, after)
      ensures Tally(S(), key) == Tallied(Tally(old(S()), key), here, after) && ticks == Tally(S(), key).0
      ensures forall k | k != key :: Tally(S(), k) == Tally(old(S()), k)
    {
      if here {
        absent, fired := absent - {key}, fired - {key};
        return false, 0;
      }
      absent := absent[key := (if key in absent then absent[key] else 0) + 1];
      if absent[key] >= after && key !in fired {
        fired := fired + {key};
        return true, absent[key];
      }
      return false, absent[key];
    }

    method Forget(repo: string, key: string)
      requires Valid()
      modifies this
      ensures Valid() && calls == old(calls) + [Call.Forget(repo, key)]
    {
      ghost var s := S();
      if repo in seen { seen := seen[repo := seen[repo] - {key}]; }
      absent := absent - {key};
      fired := fired - {key};
      ForgetSteps(s, repo, key, after);
      StepAgrees(s, S(), calls, Call.Forget(repo, key), after);
      calls := calls + [Call.Forget(repo, key)];
    }
  }

  function KeysOf(repo: string, paths: seq<string>): set<string> {
    if paths == [] then {} else KeysOf(repo, paths[..|paths| - 1]) + {repo + "/" + paths[|paths| - 1]}
  }

  // The count and the mark kept for a key.
  function Tally(s: State, key: string): (nat, bool) {
    (if key in s.absent then s.absent[key] else 0, key in s.fired)
  }

  function Tallied(t: (nat, bool), here: bool, after: int): (nat, bool) {
    if here then (0, false) else (t.0 + 1, t.1 || t.0 + 1 >= after)
  }

  predicate Due(t: (nat, bool), here: bool, after: int) {
    !here && t.0 + 1 >= after && !t.1
  }

  predicate Names(out: seq<Finding>, key: string) {
    exists i :: 0 <= i < |out| && out[i].key == key
  }

  /** Each finding carries its key's count, and no key is reported twice. */
  ghost predicate Reported(s: State, repo: string, out: seq<Finding>) {
    && (forall i | 0 <= i < |out| :: out[i].repo == repo && out[i].ticks == Tally(s, out[i].key).0)
    && (forall i, j | 0 <= i < j < |out| :: out[i].key != out[j].key)
  }

  lemma ReportedMore(s: State, t: State, repo: string, out: seq<Finding>, key: string, ticks: nat)
    requires Reported(s, repo, out) && !Names(out, key)
    requires Tally(t, key).0 == ticks && forall k | k != key :: Tally(t, k) == Tally(s, k)
    ensures Reported(t, repo, out + [Finding(repo, key, ticks)])
    ensures forall k :: Names(out + [Finding(repo, key, ticks)], k) <==> Names(out, k) || k == key
  {
    var f := Finding(repo, key, ticks);
    forall k ensures Names(out + [f], k) <==> Names(out, k) || k == f.key {
      assert (out + [f])[|out|] == f;
      if Names(out, k) {
        var i :| 0 <= i < |out| && out[i].key == k;
        assert (out + [f])[i] == out[i];
      }
    }
  }

  lemma LoadErrorSteps(s: State, t: State, c: Call, after: int)
    requires c.Observe? && c.loadErr && t.seen == s.seen
    requires forall k :: Tally(t, k) == if k in Seen(s, c.repo) then (0, k in s.fired) else Tally(s, k)
    ensures Steps(s, t, c, after)
  {
  }

  lemma SweepSteps(s: State, t: State, c: Call, after: int)
    requires c.Observe? && !c.loadErr && t.seen == s.seen[c.repo := Seen(s, c.repo) + c.keys]
    requires forall k :: Tally(t, k) == if k in Seen(s, c.repo) then Tallied(Tally(s, k), k in c.keys, after) else Tally(s, k)
    ensures Steps(s, t, c, after)
  {
  }

  function Forgetting(s: State, repo: string, key: string): State {
    State(if repo in s.seen then s.seen[repo := s.seen[repo] - {key}] else s.seen, s.absent - {key}, s.fired - {key})
  }

  lemma ForgetSteps(s: State, repo: string, key: string, after: int)
    ensures Steps(s, Forgetting(s, repo, key), Call.Forget(repo, key), after)
  {
  }

  // ---------- drift ----------

  /** Consecutive drifting observations, up to now. */
  function Drifting(h: seq<bool>): nat {
    if h == [] || !h[|h| - 1] then 0 else 1 + Drifting(h[..|h| - 1])
  }

  class DriftStreak {
    const after: int
    var n: map<string, nat>
    var fired: set<string>
    ghost var history: map<string, seq<bool>>

    constructor (after: int)
      ensures Valid() && this.after == after && history == map[]
    {
      this.after := after;
      n, fired, history := map[], {}, map[];
    }

    ghost function History(key: string): seq<bool>
      reads this
    {
      if key in history then history[key] else []
    }

    ghost predicate Sound(key: string)
      reads this
    {
      && (if key in n then n[key] else 0) == Drifting(History(key))
      && (key in fired <==> Drifting(History(key)) >= Enough(after))
    }

    ghost predicate Valid()
      reads this
    {
      forall key :: Sound(key)
    }

    /** Reports the length of the streak on the one tick that crosses the threshold, and 0 on every other. */
    method Observe(key: string, drifting: bool) returns (crossed: nat)
      requires Valid()
      modifies this
      ensures Valid() && history == old(history)[key := old(History(key)) + [drifting]]
      ensures crossed == if Drifting(History(key)) == Enough(after) then Enough(after) else 0
    {
      assert Sound(key);
      ghost var h := History(key) + [drifting];
      assert h[..|h| - 1] == History(key);
      history := history[key := h];
      crossed := 0;
      if drifting {
        n := n[key := (if key in n then n[key] else 0) + 1];
        if n[key] >= after && key !in fired {
          fired := fired + {key};
          crossed := n[key];
        }
      } else {
        n, fired := n - {key}, fired - {key};
      }
      forall k ensures Sound(k) {
        if k != key { assert old(Sound(k)) && History(k) == old(History(k)); }
      }
    }
  }
}
