/** What a save does to the scans of the listing. */
module Listing {
  import opened Rollout
  import opened Engine

  lemma {:induction false} SaveAllConcat(s: Store, a: seq<Row>, b: seq<Row>, policy: Policy)
    ensures SaveAll(s, a + b, policy) == SaveAll(SaveAll(s, a, policy), b, policy)
    decreases |a|
  {
    if a == [] {
      assert a + b == b;
    } else {
      assert (a + b)[1..] == a[1..] + b;
      SaveAllConcat(Save(s, a[0], policy), a[1..], b, policy);
    }
  }

  lemma {:induction false} FirstKept(rows: map<nat, Row>, ids: seq<nat>, row: Row, p: Row -> bool)
    requires row.id in rows && !p(row) && !p(rows[row.id])
    ensures First(rows[row.id := row], ids, p) == First(rows, ids, p)
    ensures First(rows[row.id := row], Without(ids, row.id), p) == First(rows, ids, p)
    decreases |ids|
  {
    if ids != [] { FirstKept(rows, ids[1..], row, p); }
  }

  /** Saving a row again with the manifest it is looking for an alternative to does not change that alternative. */
  lemma OwnSaveKeepsPrior(s: Store, row: Row, policy: Policy, ref: string, exclude: string)
    requires row.id in s.rows && s.rows[row.id].desired.checksum == exclude && row.desired.checksum == exclude
    ensures Prior(Save(s, row, policy), ref, exclude) == Prior(s, ref, exclude)
  {
    FirstKept(s.rows, s.listing, row, (r: Row) => Distinct(r, ref, exclude));
    assert ([row.id] + Without(s.listing, row.id))[1..] == Without(s.listing, row.id);
  }

  /** A new row is no alternative to its own manifest. */
  lemma NewSaveKeepsPrior(s: Store, row: Row, policy: Policy)
    requires row.id !in s.rows && row.id !in s.listing
    ensures Prior(Save(s, row, policy), row.ref, row.desired.checksum) == Prior(s, row.ref, row.desired.checksum)
  {
    var p := (r: Row) => Distinct(r, row.ref, row.desired.checksum);
    assert ([row.id] + s.listing)[1..] == s.listing;
    FirstElsewhere(s.rows, s.listing, row, p);
  }

  lemma {:induction false} FirstElsewhere(rows: map<nat, Row>, ids: seq<nat>, row: Row, p: Row -> bool)
    requires row.id !in ids
    ensures First(rows[row.id := row], ids, p) == First(rows, ids, p)
    decreases |ids|
  {
    if ids != [] {
      assert ids[0] != row.id && row.id !in ids[1..];
      FirstElsewhere(rows, ids[1..], row, p);
    }
  }

  /** So does saving it several times. */
  lemma {:induction false} OwnSavesKeepPrior(s: Store, saves: seq<Row>, policy: Policy, id: nat, ref: string, exclude: string)
    requires id in s.rows && s.rows[id].desired.checksum == exclude
    requires forall k | 0 <= k < |saves| :: saves[k].id == id && saves[k].desired.checksum == exclude
    ensures Prior(SaveAll(s, saves, policy), ref, exclude) == Prior(s, ref, exclude)
    decreases |saves|
  {
    if saves != [] {
      OwnSaveKeepsPrior(s, saves[0], policy, ref, exclude);
      OwnSavesKeepPrior(Save(s, saves[0], policy), saves[1..], policy, id, ref, exclude);
    }
  }

  /** A recorded earlier manifest has another checksum. */
  lemma PriorIsDistinct(s: Store, ref: string, exclude: string)
    ensures Prior(s, ref, exclude).Some? ==> Prior(s, ref, exclude).value.checksum != exclude
  {
    FirstSatisfies(s.rows, s.listing, (r: Row) => Distinct(r, ref, exclude));
  }

  lemma {:induction false} FirstSatisfies(rows: map<nat, Row>, ids: seq<nat>, p: Row -> bool)
    ensures First(rows, ids, p).Some? ==> p(First(rows, ids, p).value)
    decreases |ids|
  {
    if ids != [] { FirstSatisfies(rows, ids[1..], p); }
  }

  lemma {:induction false} FirstIsFirst(rows: map<nat, Row>, ids: seq<nat>, p: Row -> bool)
    requires forall id <- ids :: id in rows
    ensures First(rows, ids, p).None? <==> forall i | 0 <= i < |ids| :: !p(rows[ids[i]])
    ensures forall k | 0 <= k < |ids| && p(rows[ids[k]]) && (forall i | 0 <= i < k :: !p(rows[ids[i]])) ::
              First(rows, ids, p) == Some(rows[ids[k]])
    decreases |ids|
  {
    if ids != [] {
      assert forall i | 0 < i < |ids| :: ids[i] == ids[1..][i - 1];
      FirstIsFirst(rows, ids[1..], p);
    }
  }

  /** The k-th row listed is the first one of the target. */
  predicate NewestAt(s: Store, ref: string, k: nat)
    requires forall id <- s.listing :: id in s.rows
  {
    k < |s.listing| && s.rows[s.listing[k]].ref == ref && forall i | 0 <= i < k :: s.rows[s.listing[i]].ref != ref
  }

  lemma NewestIsFirst(s: Store, ref: string)
    requires Valid(s)
    ensures Newest(s, ref).None? <==> forall id <- s.rows :: s.rows[id].ref != ref
    ensures forall k: nat | NewestAt(s, ref, k) :: Newest(s, ref) == Some(s.rows[s.listing[k]])
    ensures Newest(s, ref).Some? ==> exists k: nat :: NewestAt(s, ref, k)
  {
    FirstIsFirst(s.rows, s.listing, (r: Row) => r.ref == ref);
    if Newest(s, ref).Some? {
      var j :| 0 <= j < |s.listing| && s.rows[s.listing[j]].ref == ref;
      var k := Foremost(s, ref, j);
    }
  }

  lemma {:induction false} Foremost(s: Store, ref: string, j: nat) returns (k: nat)
    requires Valid(s) && j < |s.listing| && s.rows[s.listing[j]].ref == ref
    ensures NewestAt(s, ref, k)
  {
    if i :| 0 <= i < j && s.rows[s.listing[i]].ref == ref {
      k := Foremost(s, ref, i);
    } else {
      k := j;
    }
  }

  /** The k-th row listed carries another manifest of the target than the excluded one, and a recorded one. */
  predicate OtherAt(s: Store, ref: string, exclude: string, k: nat)
    requires forall id <- s.listing :: id in s.rows
  {
    k < |s.listing|
    && var r := s.rows[s.listing[k]]; r.ref == ref && r.desired.checksum != "" && r.desired.checksum != exclude
  }

  /** The last known good manifest is the first one listed that differs, and is missing only when none does. */
  lemma PriorIsFirst(s: Store, ref: string, exclude: string)
    requires Valid(s)
    ensures Prior(s, ref, exclude).None? <==> forall k: nat :: !OtherAt(s, ref, exclude, k)
    ensures forall k: nat | OtherAt(s, ref, exclude, k) && (forall i: nat | i < k :: !OtherAt(s, ref, exclude, i)) ::
              Prior(s, ref, exclude) == Some(s.rows[s.listing[k]].desired)
  {
    FirstIsFirst(s.rows, s.listing, (r: Row) => Distinct(r, ref, exclude));
    forall k | 0 <= k < |s.listing| ensures OtherAt(s, ref, exclude, k) <==> Distinct(s.rows[s.listing[k]], ref, exclude) { }
  }

  lemma FirstOfTwo(rows: map<nat, Row>, a: nat, b: nat, p: Row -> bool)
    requires a in rows && b in rows
    ensures First(rows, [a, b], p) == if p(rows[a]) then Some(rows[a]) else if p(rows[b]) then Some(rows[b]) else None
  {
    assert [a, b][1..] == [b] && [b][1..] == [];
    assert First(rows, [b], p) == if p(rows[b]) then Some(rows[b]) else First(rows, [], p);
  }

  lemma {:induction false} AbsentWithout(ids: seq<nat>, id: nat)
    requires id !in ids
    ensures Without(ids, id) == ids
    decreases |ids|
  {
    if ids != [] { AbsentWithout(ids[1..], id); }
  }
}
