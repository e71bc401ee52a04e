/** Streaks of identical failures, judged against the whole history of their key. */
module FailStreak {
  import opened Rollout

  datatype Verdict = Fresh | Escalate | Quiet

  // ---------- permanent failures ----------

  // Lower-casing as far as the two words below can tell; U+0130 is the one letter outside ASCII that becomes one of theirs.
  function Lower(c: char): char {
    if 'A' <= c <= 'Z' then ((c as int) + 32) as char
    else if c == '\U{0130}' then 'i'
    else c
  }

  function Lowered(s: string): (r: string)
    ensures |r| == |s| && forall i | 0 <= i < |s| :: r[i] == Lower(s[i])
  {
    if s == [] then [] else [Lower(s[0])] + Lowered(s[1..])
  }

  predicate Contains(s: string, word: string) {
    exists i :: 0 <= i <= |s| && word <= s[i..]
  }

  predicate Permanent(text: string) {
    Contains(Lowered(text), "forbidden") || Contains(Lowered(text), "unauthorized")
  }

  /** Either word makes a failure permanent, in whatever case and wherever it stands. */
  lemma WordIsPermanent(front: string, word: string, back: string)
    requires Lowered(word) == "forbidden" || Lowered(word) == "unauthorized"
    ensures Permanent(front + word + back)
  {
    var text := front + word + back;
    assert Lowered(word) <= Lowered(text)[|front|..] by {
      forall i | 0 <= i < |word| ensures Lowered(text)[|front|..][i] == Lowered(word)[i] {
        assert text[|front| + i] == word[i];
      }
    }
  }

  /** And nothing else does: a permanent failure has one of them in it. */
  lemma PermanentHasWord(text: string)
    requires Permanent(text)
    ensures exists i, j :: 0 <= i <= j <= |text| && (Lowered(text[i..j]) == "forbidden" || Lowered(text[i..j]) == "unauthorized")
  {
    if Contains(Lowered(text), "forbidden") {
      var i, j := WordAt(text, "forbidden");
    } else {
      var i, j := WordAt(text, "unauthorized");
    }
  }

  lemma WordAt(text: string, word: string) returns (i: nat, j: nat)
    requires Contains(Lowered(text), word)
    ensures i <= j <= |text| && Lowered(text[i..j]) == word
  {
    i :| 0 <= i <= |text| && word <= Lowered(text)[i..];
    j := i + |word|;
    assert forall k | 0 <= k < |word| :: Lowered(text)[i..][k] == word[k];
  }

  // ---------- the history of one key ----------

  datatype Event = Noted(text: string, at: int) | Cleared

  /** How many notes of one text, uninterrupted, end the history. */
  function RunLength(h: seq<Event>): nat {
    if h == [] || h[|h| - 1].Cleared? then 0
    else
      var front, last := h[..|h| - 1], h[|h| - 1];
      1 + if front != [] && front[|front| - 1].Noted? && front[|front| - 1].text == last.text then RunLength(front) else 0
  }

  /** The note of a run that escalates it. */
  function Threshold(text: string, after: int): (n: nat)
    ensures n >= 1
  {
    if Permanent(text) then 1 else if after > 2 then after else 2
  }

  function Judge(k: nat, threshold: nat): Verdict {
    if k < threshold then Fresh else if k == threshold then Escalate else Quiet
  }

  // ---------- what is stored for one key ----------

  datatype Cell = Cell(n: nat, msg: string, fired: bool, perm: bool, heldAt: Option<int>)

  const EMPTY := Cell(0, "", false, false, None)

  /** What the stored counters must be after a history. */
  function After(h: seq<Event>, after: int): Cell {
    var k := RunLength(h);
    if k == 0 then EMPTY
    else
      var last := h[|h| - 1];
      Cell(k, last.text, k >= Threshold(last.text, after), Permanent(last.text),
           if Permanent(last.text) then Some(last.at) else LastHold(h))
  }

  /** When a permanent failure was last noted since the last clear; a later passing failure leaves it. */
  function LastHold(h: seq<Event>): Option<int> {
    if h == [] || h[|h| - 1].Cleared? then None
    else if Permanent(h[|h| - 1].text) then Some(h[|h| - 1].at)
    else LastHold(h[..|h| - 1])
  }

  predicate Meaningful(h: seq<Event>) {
    forall i | 0 <= i < |h| :: h[i].Noted? ==> h[i].text != ""
  }

  lemma RunGrows(h: seq<Event>, e: Event)
    ensures e.Noted? ==> RunLength(h + [e]) ==
                         1 + if h != [] && h[|h| - 1].Noted? && h[|h| - 1].text == e.text then RunLength(h) else 0
    ensures e.Cleared? ==> RunLength(h + [e]) == 0
    ensures e.Noted? ==> LastHold(h + [e]) == if Permanent(e.text) then Some(e.at) else LastHold(h)
  {
    assert (h + [e])[..|h|] == h;
  }

  /** One note on the stored counters of its key. */
  function Record(c: Cell, text: string, now: int, after: int): (Cell, Verdict) {
    var permanent := Permanent(text);
    var held := if permanent then Some(now) else c.heldAt;
    if c.msg != text then
      (Cell(1, text, permanent, permanent, held), if permanent then Escalate else Fresh)
    else
      var n := c.n + 1;
      if c.fired then (Cell(n, text, true, permanent, held), Quiet)
      else if permanent || n >= after then (Cell(n, text, true, permanent, held), Escalate)
      else (Cell(n, text, false, permanent, held), Fresh)
  }

  /** Counting agrees with the history: the counters stay what the history says and the verdict is its judgement. */
  lemma RecordIsHistory(h: seq<Event>, text: string, now: int, after: int)
    requires Meaningful(h) && text != "" && after >= 1
    ensures Record(After(h, after), text, now, after) ==
            var h' := h + [Noted(text, now)];
            (After(h', after), Judge(RunLength(h'), Threshold(text, after)))
  {
    RunGrows(h, Noted(text, now));
    HeldIsLastHold(h, after);
  }

  lemma HeldIsLastHold(h: seq<Event>, after: int)
    ensures After(h, after).heldAt == LastHold(h)
  {
  }

  /** A permanent failure is never stored without having escalated. */
  lemma PermanentIsEscalated(h: seq<Event>, after: int)
    ensures After(h, after).perm ==> After(h, after).fired && After(h, after).heldAt == Some(h[|h| - 1].at)
  {
  }

  lemma NoTextNoStreak(h: seq<Event>, after: int)
    requires Meaningful(h) && After(h, after).msg == ""
    ensures After(h, after) == EMPTY
  {
  }

  // Notes i to j are of one text, with nothing between them.
  predicate OneRun(h: seq<Event>, i: nat, j: nat) {
    i <= j < |h| && h[i].Noted? && forall k | i <= k <= j :: h[k].Noted? && h[k].text == h[i].text
  }

  lemma {:induction false} RunCounts(h: seq<Event>, i: nat, j: nat)
    requires OneRun(h, i, j)
    ensures RunLength(h[..j + 1]) == RunLength(h[..i + 1]) + j - i
    decreases j
  {
    if i < j {
      RunCounts(h, i, j - 1);
      assert h[..j + 1][..j] == h[..j];
      RunGrows(h[..j], h[j]);
      assert h[..j] + [h[j]] == h[..j + 1];
    }
  }

  function VerdictAt(h: seq<Event>, k: nat, after: int): Verdict
    requires k < |h| && h[k].Noted?
  {
    Judge(RunLength(h[..k + 1]), Threshold(h[k].text, after))
  }

  /** Within one run there is at most one escalation, and after it only silence. */
  lemma OneEscalationPerRun(h: seq<Event>, i: nat, j: nat, after: int)
    requires OneRun(h, i, j) && i < j && VerdictAt(h, i, after) != Fresh
    ensures VerdictAt(h, j, after) == Quiet
  {
    RunCounts(h, i, j);
  }

  // The note i begins a run: nothing before it, or a clear, or another text.
  predicate Begins(h: seq<Event>, i: nat)
    requires i < |h|
  {
    h[i].Noted? && (i == 0 || h[i - 1].Cleared? || h[i - 1].text != h[i].text)
  }

  /**
   * The whole of a run: a permanent failure escalates on its first note; any other is fresh, escalates
   * on the note that makes the run as long as asked for, and no earlier than the second; and then quiet.
   */
  lemma RunVerdicts(h: seq<Event>, i: nat, j: nat, after: int)
    requires OneRun(h, i, j) && Begins(h, i)
    ensures var nth := j - i + 1;
            VerdictAt(h, j, after) ==
            if Permanent(h[i].text) then (if nth == 1 then Escalate else Quiet)
            else if nth == 1 || nth < after then Fresh
            else if nth == after || (nth == 2 && after < 2) then Escalate
            else Quiet
  {
    RunGrows(h[..i], h[i]);
    assert h[..i] + [h[i]] == h[..i + 1];
    RunCounts(h, i, j);
  }

  // ---------- the names of a repository's keys ----------

  /** The keys a repository uses: its own name and one per path under it. */
  predicate OwnKey(repo: string, key: string) {
    key == repo || repo + "/" <= key
  }

  /** Two repositories share a key exactly when one is named like a path under the other. */
  lemma KeysSharedIff(a: string, b: string)
    requires a != b
    ensures (exists key :: OwnKey(a, key) && OwnKey(b, key)) <==> a + "/" <= b || b + "/" <= a
  {
    if a + "/" <= b { assert OwnKey(a, b) && OwnKey(b, b); }
    if b + "/" <= a { assert OwnKey(a, a) && OwnKey(b, a); }
    forall key | OwnKey(a, key) && OwnKey(b, key) ensures a + "/" <= b || b + "/" <= a {
      if |a| < |b| { Nested(a, b, key); } else if |b| < |a| { Nested(b, a, key); } else { SameStart(a, b, key); }
    }
  }

  lemma SameStart(a: string, b: string, key: string)
    requires a <= key && b <= key && |a| == |b|
    ensures a == b
  {
  }

  lemma Nested(a: string, b: string, key: string)
    requires OwnKey(a, key) && OwnKey(b, key) && |a| < |b|
    ensures a + "/" <= b
  {
    assert b <= key && a + "/" <= key;
  }

  class FailStreak {
    const after: int
    var n: map<string, nat>
    var msg: map<string, string>
    var fired: set<string>
    var perm: set<string>
    var heldAt: map<string, int>
    ghost var history: map<string, seq<Event>>

    constructor (after: int)
      ensures Valid() && this.after == (if after < 1 then 1 else after) && history == map[]
    {
      this.after := if after < 1 then 1 else after;
      n, msg, fired, perm, heldAt, history := map[], map[], {}, {}, map[], map[];
    }

    function Stored(key: string): Cell
      reads this
    {
      Cell(if key in n then n[key] else 0,
           if key in msg then msg[key] else "",
           key in fired,
           key in perm,
           if key in heldAt then Some(heldAt[key]) else None)
    }

    ghost function History(key: string): seq<Event>
      reads this
    {
      if key in history then history[key] else []
    }

    ghost predicate Sound(key: string)
      reads this
    {
      Meaningful(History(key)) && Stored(key) == After(History(key), after)
    }

    /** The counters of every key are what its history says. */
    ghost predicate Valid()
      reads this
    {
      after >= 1 && forall key :: Sound(key)
    }

    /** One failure: the verdict is decided by the length of the run of this very text that it ends. */
    method Note(key: string, text: string, now: int) returns (v: Verdict)
      requires Valid()
      modifies this
      ensures Valid()
      ensures text == "" ==> v == Fresh && history == old(history)[key := old(History(key)) + [Cleared]]
      ensures text != "" ==>
                var h := old(History(key)) + [Noted(text, now)];
                history == old(history)[key := h] && v == Judge(RunLength(h), Threshold(text, after))
    {
      if text == "" {
        Clear(key);
        return Fresh;
      }
      assert Sound(key);
      ghost var h := History(key) + [Noted(text, now)];
      RecordIsHistory(History(key), text, now, after);
      v := Count(key, text, now);
      history := history[key := h];
      assert History(key) == h && Meaningful(h) && Stored(key) == After(h, after);
      forall k ensures Sound(k) {
        if k != key { assert old(Sound(k)) && History(k) == old(History(k)); }
      }
    }

    method Count(key: string, text: string, now: int) returns (v: Verdict)
      requires text != ""
      modifies this`n, this`msg, this`fired, this`perm, this`heldAt
      ensures (Stored(key), v) == Record(old(Stored(key)), text, now, after)
      ensures forall k | k != key :: Stored(k) == old(Stored(k))
    {
      var permanent := Permanent(text);
      if permanent { heldAt := heldAt[key := now]; }
      perm := if permanent then perm + {key} else perm - {key};
      if (if key in msg then msg[key] else "") != text {
        msg, n := msg[key := text], n[key := 1];
        fired := if permanent then fired + {key} else fired - {key};
        return if permanent then Escalate else Fresh;
      }
      n := n[key := (if key in n then n[key] else 0) + 1];
      if key in fired { return Quiet; }
      if permanent || n[key] >= after {
        fired := fired + {key};
        return Escalate;
      }
      return Fresh;
    }

    /** Held exactly while the last thing heard of the key is a permanent failure no older than the hold. */
    method Held(key: string, now: int) returns (held: Option<string>)
      requires Valid()
      ensures var h := History(key);
              held == if h != [] && h[|h| - 1].Noted? && Permanent(h[|h| - 1].text) && now - h[|h| - 1].at <= 30 * 60
                      then Some(h[|h| - 1].text) else None
    {
      assert Sound(key);
      PermanentIsEscalated(History(key), after);
      assert Stored(key) == After(History(key), after);
      if key !in fired || key !in perm { return None; }
      if now - (if key in heldAt then heldAt[key] else 0) > HOLD { return None; }
      return Some(if key in msg then msg[key] else "");
    }

    method Clear(key: string)
      requires Valid()
      modifies this
      ensures Valid() && history == old(history)[key := old(History(key)) + [Cleared]]
      ensures Stored(key) == EMPTY && forall k | k != key :: Stored(k) == old(Stored(k))
    {
      RunGrows(History(key), Cleared);
      assert Sound(key);
      Drop(key);
      history := history[key := History(key) + [Cleared]];
      forall k ensures Sound(k) {
        if k != key { assert old(Sound(k)) && History(k) == old(History(k)); }
      }
    }

    method Drop(key: string)
      modifies this`n, this`msg, this`fired, this`perm, this`heldAt
      ensures Stored(key) == EMPTY
      ensures forall k | k != key :: Stored(k) == old(Stored(k))
    {
      n, msg, fired, perm, heldAt := n - {key}, msg - {key}, fired - {key}, perm - {key}, heldAt - {key};
    }

    /** Drops the streak of every key under the repository's name, and of no other key. */
    method ClearRepo(repo: string)
      requires Valid()
      modifies this
      ensures Valid()
      ensures forall key :: Stored(key) == if OwnKey(repo, key) then EMPTY else old(Stored(key))
      ensures forall key | !OwnKey(repo, key) :: History(key) == old(History(key))
    {
      var rest := msg.Keys;
      forall key | key !in rest ensures Stored(key) == EMPTY {
        assert Sound(key);
        NoTextNoStreak(History(key), after);
      }
      while rest != {}
        invariant Valid()
        invariant forall key :: Stored(key) == if OwnKey(repo, key) && key !in rest then EMPTY else old(Stored(key))
        invariant forall key | !OwnKey(repo, key) :: History(key) == old(History(key))
        decreases rest
      {
        var key :| key in rest;
        rest := rest - {key};
        if key == repo || repo + "/" <= key { Clear(key); }
      }
    }
  }

  /** How long a permanent failure is held: thirty minutes, in seconds. */
  const HOLD := 1800
}
