/** Image automation: reading a reference, deciding its replacement, and what many cycles keep. */
module ImageAuto {
  import opened Rollout
  import opened Semver

  // ---------- references ----------

  function IndexOf(s: string, c: char): (i: int)
    ensures -1 <= i < |s| && (i == -1 <==> c !in s)
    ensures i >= 0 ==> s[i] == c && c !in s[..i]
  {
    if s == [] then -1
    else if s[0] == c then 0
    else
      var i := IndexOf(s[1..], c);
      assert s == [s[0]] + s[1..];
      assert i >= 0 ==> s[..i + 1] == [s[0]] + s[1..][..i];
      if i < 0 then -1 else i + 1
  }

  function LastIndexOf(s: string, c: char): (i: int)
    ensures -1 <= i < |s| && (i == -1 <==> c !in s)
    ensures i >= 0 ==> s[i] == c && c !in s[i + 1..]
  {
    if s == [] then -1
    else if s[|s| - 1] == c then |s| - 1
    else
      var i := LastIndexOf(s[..|s| - 1], c);
      assert s == s[..|s| - 1] + [s[|s| - 1]];
      assert i >= 0 ==> s[i + 1..] == s[..|s| - 1][i + 1..] + [s[|s| - 1]];
      i
  }

  datatype Parts = Parts(repo: string, tag: string, digest: string)

  /** A colon after the last slash starts the tag; without one the tag is "latest". */
  function SplitImage(image: string): (string, string) {
    var i := LastIndexOf(image, ':');
    if i > LastIndexOf(image, '/') then (image[..i], image[i + 1..]) else (image, "latest")
  }

  /** What stands before the first at sign, and what follows it. */
  function Cut(ref: string): (string, string) {
    var at := IndexOf(ref, '@');
    if at >= 0 then (ref[..at], ref[at + 1..]) else (ref, "")
  }

  function SplitDigestRef(ref: string): Parts {
    var (image, digest) := Cut(ref);
    var (repo, tag) := SplitImage(image);
    Parts(repo, tag, digest)
  }

  function Tagged(repo: string, tag: string): string {
    repo + ([':'] + tag)
  }

  function Pinned(repo: string, tag: string, digest: string): string {
    Tagged(repo, tag) + (['@'] + digest)
  }

  predicate PlainTag(tag: string) {
    ':' !in tag && '/' !in tag && '@' !in tag
  }

  lemma IndexUnique(s: string, c: char, i: nat)
    requires i < |s| && s[i] == c && c !in s[..i]
    ensures IndexOf(s, c) == i
  {
    var k := IndexOf(s, c);
    assert forall h | 0 <= h < i :: s[h] in s[..i];
    assert k >= 0 ==> forall h | 0 <= h < k :: s[h] in s[..k];
  }

  lemma LastIndexUnique(s: string, c: char, i: nat)
    requires i < |s| && s[i] == c && c !in s[i + 1..]
    ensures LastIndexOf(s, c) == i
  {
    var k := LastIndexOf(s, c);
    assert forall h | i < h < |s| :: s[h] in s[i + 1..];
    assert k >= 0 ==> forall h | k < h < |s| :: s[h] in s[k + 1..];
  }

  lemma SplitTagged(repo: string, tag: string)
    requires ':' !in tag && '/' !in tag
    ensures SplitImage(Tagged(repo, tag)) == (repo, tag)
  {
    var s := Tagged(repo, tag);
    assert s[|repo|] == ':' && s[|repo| + 1..] == tag && s[..|repo|] == repo;
    LastIndexUnique(s, ':', |repo|);
    assert forall h | |repo| < h < |s| :: s[h] in tag;
  }

  /** Splitting undoes joining, with and without a digest. */
  lemma SplitUndoesJoin(repo: string, tag: string, digest: string)
    requires PlainTag(tag) && '@' !in repo
    ensures SplitDigestRef(Pinned(repo, tag, digest)) == Parts(repo, tag, digest)
    ensures SplitDigestRef(Tagged(repo, tag)) == Parts(repo, tag, "")
  {
    SplitTagged(repo, tag);
    NoAtSign(repo, tag);
    CutAtSign(Tagged(repo, tag), digest);
  }

  lemma NoAtSign(repo: string, tag: string)
    requires '@' !in repo && '@' !in tag
    ensures '@' !in Tagged(repo, tag)
  {
  }

  // The first at sign separates what has none from what follows.
  lemma CutAtSign(t: string, digest: string)
    requires '@' !in t
    ensures Cut(t + (['@'] + digest)) == (t, digest) && Cut(t) == (t, "")
  {
    var s := t + (['@'] + digest);
    assert s[|t|] == '@' && s[..|t|] == t && s[|t| + 1..] == digest;
    IndexUnique(s, '@', |t|);
  }

  /** Without a colon after the last slash there is no tag: a colon in front of it is a port. */
  lemma UntaggedIsLatest(registry: string, name: string)
    requires '@' !in registry && '@' !in name && ':' !in name && '/' !in name
    ensures SplitDigestRef(registry + (['/'] + name)) == Parts(registry + (['/'] + name), "latest", "")
    ensures SplitDigestRef(name) == Parts(name, "latest", "")
  {
    var s := registry + (['/'] + name);
    assert s[|registry|] == '/' && s[|registry| + 1..] == name;
    LastIndexUnique(s, '/', |registry|);
    assert forall h | |registry| < h < |s| :: s[h] in name;
    CutAtSign(s, "");
    CutAtSign(name, "");
  }

  lemma SplitImageIsPlain(image: string)
    ensures var (repo, tag) := SplitImage(image);
            ':' !in tag && '/' !in tag && ('@' !in image ==> '@' !in repo && '@' !in tag)
  {
    var i := LastIndexOf(image, ':');
    var slash := LastIndexOf(image, '/');
    if i > slash {
      TailHas(image, i + 1, slash + 1, '/');
      TailHas(image, i + 1, 0, '@');
      assert image[0..] == image;
    }
  }

  // What a later tail holds, an earlier one holds.
  lemma TailHas(s: string, i: nat, j: nat, c: char)
    requires j <= i <= |s|
    ensures c in s[i..] ==> c in s[j..]
  {
    assert s[j..][i - j..] == s[i..];
  }

  /** Whatever is split, the parts can be joined again without ambiguity. */
  lemma SplitIsPlain(ref: string)
    ensures var p := SplitDigestRef(ref); PlainTag(p.tag) && '@' !in p.repo
  {
    SplitImageIsPlain(Cut(ref).0);
  }

  // ---------- resolving ----------

  datatype Registry = Registry(tags: string -> Option<seq<string>>, digest: string -> Option<string>)

  datatype Policy = Policy(rule: Rule, allows: string -> bool, permits: (string, string) -> bool)

  // "any" bounds a version no more than "major" does.
  function PolicyFor(mode: string, pattern: Pattern, allows: string -> bool, permits: (string, string) -> bool): (p: Policy)
    ensures p.rule.parse("").None?
    ensures p.rule.mode == if mode == "any" then "major" else mode
  {
    Policy(Rule(ParseSemver, if mode == "any" then "major" else mode, pattern), allows, permits)
  }

  datatype Resolution = Same | Replace(ref: string) | Fail

  function ResolveDigest(reg: Registry, p: Parts): Resolution {
    match reg.digest(Tagged(p.repo, p.tag))
    case None => Fail
    case Some(d) => if d == p.digest then Same else Replace(Pinned(p.repo, p.tag, d))
  }

  /** The reference for a new tag: pinned when its digest is known, and never unpinned if it was pinned before. */
  function PinnedRef(reg: Registry, repo: string, tag: string, wasPinned: bool): Resolution {
    var d := reg.digest(Tagged(repo, tag));
    if d.Some? && d.value != "" then Replace(Pinned(repo, tag, d.value))
    else if wasPinned then Fail
    else Replace(Tagged(repo, tag))
  }

  ghost predicate ResolvesSemver(reg: Registry, pol: Policy, p: Parts, r: Resolution) {
    match reg.tags(p.repo)
    case None => r == Fail
    case Some(tags) =>
      (r == Same && Selects(pol.rule, p.tag, tags, None))
      || exists tag :: Selects(pol.rule, p.tag, tags, Some(tag))
                       && r == if pol.permits(p.repo, tag) then PinnedRef(reg, p.repo, tag, p.digest != "") else Fail
  }

  predicate HasDigest(reg: Registry, repo: string, tag: string, digest: string) {
    reg.digest(Tagged(repo, tag)) == Some(digest)
  }

  /** The highest release tag that stands for the pinned digest. */
  ghost predicate Stands(reg: Registry, r: Rule, repo: string, tags: seq<string>, digest: string, tag: string) {
    && !r.pattern.Malformed? && tag in tags && r.Release(tag) && HasDigest(reg, repo, tag, digest)
    && forall t | t in tags && r.Release(t) && HasDigest(reg, repo, t, digest) :: !r.Beats(t, tag)
  }

  ghost predicate NoneStands(reg: Registry, r: Rule, repo: string, tags: seq<string>, digest: string) {
    r.pattern.Malformed? || forall t | t in tags && r.Release(t) :: !HasDigest(reg, repo, t, digest)
  }

  ghost predicate ResolvesMigration(reg: Registry, pol: Policy, p: Parts, r: Resolution) {
    match reg.tags(p.repo)
    case None => r == Fail
    case Some(tags) =>
      (r == Fail && NoneStands(reg, pol.rule, p.repo, tags, p.digest))
      || exists tag :: Stands(reg, pol.rule, p.repo, tags, p.digest, tag)
                       && r == if pol.permits(p.repo, tag) then Replace(Pinned(p.repo, tag, p.digest)) else Fail
  }

  predicate IsVersion(r: Rule, tag: string) {
    r.parse(tag).Some? && !r.parse(tag).value.pre
  }

  /** What resolving an image can answer. Tags of equal version are tried in no fixed order. */
  ghost predicate Resolves(reg: Registry, pol: Policy, image: string, r: Resolution) {
    var p := SplitDigestRef(image);
    if !pol.allows(image) then r == Fail
    else if pol.rule.mode == "digest" then r == ResolveDigest(reg, p)
    else if IsVersion(pol.rule, p.tag) then ResolvesSemver(reg, pol, p, r)
    else if p.digest != "" then ResolvesMigration(reg, pol, p, r)
    else r == Same
  }

  method SemverForDigest(reg: Registry, r: Rule, repo: string, digest: string, tags: seq<string>) returns (found: Option<string>)
    ensures found.Some? ==> Stands(reg, r, repo, tags, digest, found.value)
    ensures found.None? ==> NoneStands(reg, r, repo, tags, digest)
  {
    var sorted := SemverTagsDesc(r, tags);
    for i := 0 to |sorted|
      invariant forall k | 0 <= k < i :: !HasDigest(reg, repo, sorted[k], digest)
    {
      var d := reg.digest(Tagged(repo, sorted[i]));
      if d.Some? && d.value == digest {
        FirstStands(reg, r, repo, digest, tags, sorted, i);
        return Some(sorted[i]);
      }
    }
    SortedIsReleases(r, tags, sorted);
    return None;
  }

  lemma FirstStands(reg: Registry, r: Rule, repo: string, digest: string, tags: seq<string>, sorted: seq<string>, i: nat)
    requires i < |sorted| && Descending(r, sorted) && AllReleases(r, sorted)
    requires multiset(sorted) == if r.pattern.Malformed? then multiset{} else multiset(Releases(r, tags))
    requires HasDigest(reg, repo, sorted[i], digest) && forall k | 0 <= k < i :: !HasDigest(reg, repo, sorted[k], digest)
    ensures Stands(reg, r, repo, tags, digest, sorted[i])
  {
    SortedIsReleases(r, tags, sorted);
    assert sorted[i] in sorted;
    forall t | t in tags && r.Release(t) && HasDigest(reg, repo, t, digest) ensures !r.Beats(t, sorted[i]) {
      var k :| 0 <= k < |sorted| && sorted[k] == t;
      assert k == i || !r.Beats(sorted[k], sorted[i]);
    }
  }

  lemma SortedIsReleases(r: Rule, tags: seq<string>, sorted: seq<string>)
    requires multiset(sorted) == if r.pattern.Malformed? then multiset{} else multiset(Releases(r, tags))
    ensures forall t :: t in sorted <==> !r.pattern.Malformed? && t in tags && r.Release(t)
  {
    forall t ensures t in sorted <==> !r.pattern.Malformed? && t in tags && r.Release(t) {
      assert t in sorted <==> t in multiset(sorted);
      assert t in Releases(r, tags) <==> t in multiset(Releases(r, tags));
    }
  }

  method Resolve(reg: Registry, pol: Policy, image: string) returns (res: Resolution)
    requires pol.rule.parse("").None?
    ensures Resolves(reg, pol, image, res)
  {
    if !pol.allows(image) { return Fail; }
    var p := SplitDigestRef(image);
    if pol.rule.mode == "digest" { return ResolveDigest(reg, p); }
    var version := pol.rule.parse(p.tag).Some? && !pol.rule.parse(p.tag).value.pre;
    if !version && p.digest == "" { return Same; }
    var tags := reg.tags(p.repo);
    if tags.None? { return Fail; }
    if version {
      var found := SelectTag(pol.rule, p.tag, tags.value);
      if found.None? { return Same; }
      if !pol.permits(p.repo, found.value) { return Fail; }
      return PinnedRef(reg, p.repo, found.value, p.digest != "");
    }
    var tag := SemverForDigest(reg, pol.rule, p.repo, p.digest, tags.value);
    if tag.None? || !pol.permits(p.repo, tag.value) { return Fail; }
    return Replace(Pinned(p.repo, tag.value, p.digest));
  }

  // ---------- pins ----------

  predicate IsPinned(image: string) {
    SplitDigestRef(image).digest != ""
  }

  /** The tags of a registry are plain names. */
  ghost predicate PlainTags(reg: Registry) {
    forall repo: string, tag: string :: reg.tags(repo).Some? && tag in reg.tags(repo).value ==> PlainTag(tag)
  }

  /** The one answer that would unpin: in digest mode, a digest that is there but empty. */
  predicate EmptyDigest(reg: Registry, pol: Policy, image: string) {
    var p := SplitDigestRef(image);
    pol.rule.mode == "digest" && reg.digest(Tagged(p.repo, p.tag)) == Some("")
  }

  /** What a replacement is made of: the same repository, an old or offered tag, and a digest. */
  lemma ReplacementParts(reg: Registry, pol: Policy, image: string, ref: string)
    requires PlainTags(reg) && Resolves(reg, pol, image, Replace(ref))
    ensures var p, q := SplitDigestRef(image), SplitDigestRef(ref);
            && q.repo == p.repo
            && (pol.rule.mode == "digest" ==> q.tag == p.tag && reg.digest(Tagged(p.repo, p.tag)) == Some(q.digest))
            && (pol.rule.mode != "digest" && IsVersion(pol.rule, p.tag) ==>
                  reg.tags(p.repo).Some? && Selects(pol.rule, p.tag, reg.tags(p.repo).value, Some(q.tag))
                  && (p.digest != "" ==> q.digest != ""))
            && (pol.rule.mode != "digest" && !IsVersion(pol.rule, p.tag) ==>
                  q.digest == p.digest && p.digest != "" && IsVersion(pol.rule, q.tag))
  {
    var p := SplitDigestRef(image);
    SplitIsPlain(image);
    if pol.rule.mode == "digest" {
      SplitUndoesJoin(p.repo, p.tag, reg.digest(Tagged(p.repo, p.tag)).value);
    } else if IsVersion(pol.rule, p.tag) {
      SemverParts(reg, pol, p, ref);
    } else {
      MigrationParts(reg, pol, p, ref);
    }
  }

  lemma SemverParts(reg: Registry, pol: Policy, p: Parts, ref: string)
    requires PlainTags(reg) && '@' !in p.repo && ResolvesSemver(reg, pol, p, Replace(ref))
    ensures var q := SplitDigestRef(ref);
            q.repo == p.repo && (p.digest != "" ==> q.digest != "")
            && reg.tags(p.repo).Some? && Selects(pol.rule, p.tag, reg.tags(p.repo).value, Some(q.tag))
  {
    var tags := reg.tags(p.repo).value;
    var tag :| Selects(pol.rule, p.tag, tags, Some(tag)) && Replace(ref) == PinnedRef(reg, p.repo, tag, p.digest != "");
    assert PlainTag(tag) by { SelectedIsTop(pol.rule, p.tag, tags, tag, None); }
    PinnedRefParts(reg, p.repo, tag, p.digest != "", ref);
  }

  lemma PinnedRefParts(reg: Registry, repo: string, tag: string, wasPinned: bool, ref: string)
    requires '@' !in repo && PlainTag(tag) && PinnedRef(reg, repo, tag, wasPinned) == Replace(ref)
    ensures var q := SplitDigestRef(ref); q.repo == repo && q.tag == tag && (wasPinned ==> q.digest != "")
  {
    var d := reg.digest(Tagged(repo, tag));
    SplitUndoesJoin(repo, tag, if d.Some? then d.value else "");
  }

  lemma MigrationParts(reg: Registry, pol: Policy, p: Parts, ref: string)
    requires PlainTags(reg) && '@' !in p.repo && ResolvesMigration(reg, pol, p, Replace(ref))
    ensures var q := SplitDigestRef(ref); q.repo == p.repo && q.digest == p.digest && IsVersion(pol.rule, q.tag)
  {
    var tag :| Stands(reg, pol.rule, p.repo, reg.tags(p.repo).value, p.digest, tag)
               && ref == Pinned(p.repo, tag, p.digest);
    SplitUndoesJoin(p.repo, tag, p.digest);
  }

  // Whatever stands before it, an at sign with something after it pins.
  lemma AtSignPins(s: string, i: nat)
    requires i + 1 < |s| && s[i] == '@'
    ensures IsPinned(s)
  {
    var at := IndexOf(s, '@');
    assert at >= 0 && forall h | 0 <= h < at :: s[h] in s[..at];
  }

  lemma PinnedIsPinned(repo: string, tag: string, digest: string)
    requires digest != ""
    ensures IsPinned(Pinned(repo, tag, digest))
  {
    var i := |Tagged(repo, tag)|;
    assert Pinned(repo, tag, digest)[i] == '@';
    AtSignPins(Pinned(repo, tag, digest), i);
  }

  /**
   * A pinned reference is replaced by a pinned one, except exactly when the registry answers with an
   * empty digest; whatever tags the registry offers.
   */
  lemma PinSurvivesIff(reg: Registry, pol: Policy, image: string, ref: string)
    requires IsPinned(image) && Resolves(reg, pol, image, Replace(ref))
    ensures IsPinned(ref) <==> !EmptyDigest(reg, pol, image)
  {
    var p := SplitDigestRef(image);
    if pol.rule.mode == "digest" {
      SplitIsPlain(image);
      SplitUndoesJoin(p.repo, p.tag, reg.digest(Tagged(p.repo, p.tag)).value);
    } else if IsVersion(pol.rule, p.tag) {
      SemverPins(reg, pol, p, ref);
    } else {
      MigrationPins(reg, pol, p, ref);
    }
  }

  lemma SemverPins(reg: Registry, pol: Policy, p: Parts, ref: string)
    requires p.digest != "" && ResolvesSemver(reg, pol, p, Replace(ref))
    ensures IsPinned(ref)
  {
    var tag :| Selects(pol.rule, p.tag, reg.tags(p.repo).value, Some(tag)) && Replace(ref) == PinnedRef(reg, p.repo, tag, true);
    PinnedIsPinned(p.repo, tag, reg.digest(Tagged(p.repo, tag)).value);
  }

  lemma MigrationPins(reg: Registry, pol: Policy, p: Parts, ref: string)
    requires p.digest != "" && ResolvesMigration(reg, pol, p, Replace(ref))
    ensures IsPinned(ref)
  {
    var tag :| Stands(reg, pol.rule, p.repo, reg.tags(p.repo).value, p.digest, tag) && ref == Pinned(p.repo, tag, p.digest);
    PinnedIsPinned(p.repo, tag, p.digest);
  }

  /** One cycle: what the registry and the policy were, and the answer, which may or may not be adopted. */
  datatype Cycle = Cycle(reg: Registry, pol: Policy, answer: Resolution, adopted: bool)

  function Adopt(image: string, c: Cycle): string {
    if c.adopted && c.answer.Replace? then c.answer.ref else image
  }

  ghost predicate Lawful(image: string, cycles: seq<Cycle>)
    decreases |cycles|
  {
    cycles != [] ==>
      && Resolves(cycles[0].reg, cycles[0].pol, image, cycles[0].answer)
      && !EmptyDigest(cycles[0].reg, cycles[0].pol, image)
      && Lawful(Adopt(image, cycles[0]), cycles[1..])
  }

  function Final(image: string, cycles: seq<Cycle>): string
    decreases |cycles|
  {
    if cycles == [] then image else Final(Adopt(image, cycles[0]), cycles[1..])
  }

  /** Over any number of cycles, with registries and policies changing in any way, a pin is never dropped. */
  lemma {:induction false} PinIsNeverDropped(image: string, cycles: seq<Cycle>)
    requires IsPinned(image) && Lawful(image, cycles)
    ensures IsPinned(Final(image, cycles))
    decreases |cycles|
  {
    if cycles != [] {
      var c := cycles[0];
      if c.adopted && c.answer.Replace? { PinSurvivesIff(c.reg, c.pol, image, c.answer.ref); }
      PinIsNeverDropped(Adopt(image, c), cycles[1..]);
    }
  }

  /** And as long as the tags offered are plain names, the repository stays. */
  lemma {:induction false} RepositoryStays(image: string, cycles: seq<Cycle>)
    requires Lawful(image, cycles) && forall i | 0 <= i < |cycles| :: PlainTags(cycles[i].reg)
    ensures SplitDigestRef(Final(image, cycles)).repo == SplitDigestRef(image).repo
    decreases |cycles|
  {
    if cycles != [] {
      var c := cycles[0];
      if c.adopted && c.answer.Replace? { ReplacementParts(c.reg, c.pol, image, c.answer.ref); }
      RepositoryStays(Adopt(image, c), cycles[1..]);
    }
  }

  // ---------- versions ----------

  /** A version is only ever replaced by a strictly greater one within the mode's bound. */
  lemma BumpsIncrease(reg: Registry, pol: Policy, image: string, ref: string)
    requires PlainTags(reg) && pol.rule.mode != "digest" && Resolves(reg, pol, image, Replace(ref))
    requires IsVersion(pol.rule, SplitDigestRef(image).tag)
    ensures var old', new' := pol.rule.parse(SplitDigestRef(image).tag), pol.rule.parse(SplitDigestRef(ref).tag);
            && old'.Some? && new'.Some? && Greater(new'.value, old'.value) && !new'.value.pre
            && (pol.rule.mode == "minor" || pol.rule.mode == "patch" ==> new'.value.major == old'.value.major)
            && (pol.rule.mode == "patch" ==> new'.value.minor == old'.value.minor)
  {
    var p, q := SplitDigestRef(image), SplitDigestRef(ref);
    ReplacementParts(reg, pol, image, ref);
    SelectedIsTop(pol.rule, p.tag, reg.tags(p.repo).value, q.tag, None);
  }

  /** A replacement is made only for an image the operator allows, and only to a tag the operator permits. */
  lemma ReplacementIsAllowed(reg: Registry, pol: Policy, image: string, ref: string)
    requires PlainTags(reg) && Resolves(reg, pol, image, Replace(ref))
    ensures pol.allows(image)
    ensures pol.rule.mode != "digest" ==> pol.permits(SplitDigestRef(image).repo, SplitDigestRef(ref).tag)
  {
    var p := SplitDigestRef(image);
    SplitIsPlain(image);
    if pol.rule.mode == "digest" {
    } else if IsVersion(pol.rule, p.tag) {
      var tags := reg.tags(p.repo).value;
      var tag :| Selects(pol.rule, p.tag, tags, Some(tag)) && pol.permits(p.repo, tag)
                 && Replace(ref) == PinnedRef(reg, p.repo, tag, p.digest != "");
      SelectedIsTop(pol.rule, p.tag, tags, tag, None);
      PinnedRefParts(reg, p.repo, tag, p.digest != "", ref);
    } else {
      var tag :| Stands(reg, pol.rule, p.repo, reg.tags(p.repo).value, p.digest, tag) && pol.permits(p.repo, tag)
                 && ref == Pinned(p.repo, tag, p.digest);
      SplitUndoesJoin(p.repo, tag, p.digest);
    }
  }

  /** In digest mode an allowed image follows its tag: the digest the registry has now, if it is another one. */
  lemma DigestIsFollowed(reg: Registry, pol: Policy, image: string, r: Resolution)
    requires pol.allows(image) && pol.rule.mode == "digest" && Resolves(reg, pol, image, r)
    ensures var p := SplitDigestRef(image); var now := reg.digest(Tagged(p.repo, p.tag));
            && (r == Fail <==> now.None?)
            && (r == Same <==> now == Some(p.digest))
            && (r.Replace? ==> SplitDigestRef(r.ref) == Parts(p.repo, p.tag, now.value))
  {
    var p := SplitDigestRef(image);
    SplitIsPlain(image);
    var now := reg.digest(Tagged(p.repo, p.tag));
    if now.Some? { SplitUndoesJoin(p.repo, p.tag, now.value); }
  }

  /** The registry knows every digest, and the policy permits every tag. */
  ghost predicate Forthcoming(reg: Registry, pol: Policy) {
    && (forall repo, tag :: pol.permits(repo, tag))
    && (forall ref :: reg.digest(ref).Some? && reg.digest(ref).value != "")
  }

  /** Then a release is left where it is exactly when none within the mode's bound is above it, and is moved otherwise. */
  lemma ReleaseMovesIff(reg: Registry, pol: Policy, image: string, r: Resolution)
    requires Forthcoming(reg, pol) && pol.allows(image) && pol.rule.mode != "digest" && Resolves(reg, pol, image, r)
    requires IsVersion(pol.rule, SplitDigestRef(image).tag) && reg.tags(SplitDigestRef(image).repo).Some?
    ensures var p := SplitDigestRef(image); var cur := pol.rule.parse(p.tag).value;
            && !r.Fail?
            && (r == Same <==> pol.rule.pattern.Malformed? || NoneAbove(pol.rule, cur, reg.tags(p.repo).value, cur))
  {
    SemverMovesIff(reg, pol, SplitDigestRef(image), reg.tags(SplitDigestRef(image).repo).value, r);
  }

  lemma SemverMovesIff(reg: Registry, pol: Policy, p: Parts, tags: seq<string>, r: Resolution)
    requires Forthcoming(reg, pol) && pol.rule.parse(p.tag).Some? && reg.tags(p.repo) == Some(tags) && ResolvesSemver(reg, pol, p, r)
    ensures var cur := pol.rule.parse(p.tag).value;
            !r.Fail? && (r == Same <==> pol.rule.pattern.Malformed? || NoneAbove(pol.rule, cur, tags, cur))
  {
    if !(r == Same && Selects(pol.rule, p.tag, tags, None)) {
      var tag :| Selects(pol.rule, p.tag, tags, Some(tag)) && r == PinnedRef(reg, p.repo, tag, p.digest != "");
      assert r.Replace?;
    }
  }

  // ---------- convergence ----------

  /** Against a fixed registry a version that was just selected, or a digest just read, is left alone. */
  lemma SettledAfterBump(reg: Registry, pol: Policy, image: string, ref: string, r: Resolution)
    requires PlainTags(reg) && Resolves(reg, pol, image, Replace(ref)) && Resolves(reg, pol, ref, r)
    requires pol.rule.mode == "digest" || IsVersion(pol.rule, SplitDigestRef(image).tag)
    ensures !r.Replace?
  {
    var p, q := SplitDigestRef(image), SplitDigestRef(ref);
    ReplacementParts(reg, pol, image, ref);
    if pol.rule.mode != "digest" {
      var tags := reg.tags(p.repo).value;
      SelectedIsTop(pol.rule, p.tag, tags, q.tag, None);
      if r.Replace? && pol.allows(ref) {
        var tag :| Selects(pol.rule, q.tag, tags, Some(tag));
        SelectedIsTop(pol.rule, p.tag, tags, q.tag, Some(tag));
      }
    }
  }

  /** At most two replacements, one of them the change from a bare digest to a version, and then none. */
  lemma TwoBumpsAtMost(reg: Registry, pol: Policy, image: string, first: string, second: string, r: Resolution)
    requires PlainTags(reg) && Resolves(reg, pol, image, Replace(first)) && Resolves(reg, pol, first, Replace(second))
    requires Resolves(reg, pol, second, r)
    ensures !r.Replace?
  {
    ReplacementParts(reg, pol, image, first);
    if pol.rule.mode == "digest" || IsVersion(pol.rule, SplitDigestRef(image).tag) {
      SettledAfterBump(reg, pol, image, first, Replace(second));
    } else {
      SettledAfterBump(reg, pol, first, second, r);
    }
  }
}
