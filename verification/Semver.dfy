/** Version tags: parsing, comparing, and choosing the one to update to. */
module Semver {
  import opened Rollout
  import opened Decimal

  datatype Version = Version(major: nat, minor: nat, patch: nat, pre: bool)

  // ---------- parsing: an optional "v", three numbers, and a suffix ----------

  const MAX_INT := 0x7fff_ffff_ffff_ffff

  /** A number that does not fit a machine integer is refused. */
  function Component(s: string): Option<(nat, string)> {
    var n := Leading(s);
    if n == 0 || Number(s[..n]) > MAX_INT then None else Some((Number(s[..n]), s[n..]))
  }

  function AfterDot(s: string): Option<(nat, string)> {
    if s == [] || s[0] != '.' then None else Component(s[1..])
  }

  function Numbers(body: string): Option<Version> {
    match Component(body)
    case None => None
    case Some((major, r1)) =>
      match AfterDot(r1)
      case None => None
      case Some((minor, r2)) =>
        match AfterDot(r2)
        case None => None
        case Some((patch, suffix)) =>
          if '\n' in suffix then None else Some(Version(major, minor, patch, suffix != [] && suffix[0] == '-'))
  }

  // The tag without its optional "v".
  function Bare(tag: string): (r: string)
    ensures tag == r || tag == ['v'] + r
  {
    if tag != [] && tag[0] == 'v' then tag[1..] else tag
  }

  function ParseSemver(tag: string): Option<Version> {
    Numbers(Bare(tag))
  }

  lemma ComponentOf(n: nat, rest: string)
    requires n <= MAX_INT && (rest != [] ==> !Digit(rest[0]))
    ensures Component(Render(n) + rest) == Some((n, rest))
  {
    NumberOfRender(n);
    LeadingOf(Render(n), rest);
  }

  lemma AfterDotOf(n: nat, rest: string)
    requires n <= MAX_INT && (rest != [] ==> !Digit(rest[0]))
    ensures AfterDot(['.'] + (Render(n) + rest)) == Some((n, rest))
  {
    var s := ['.'] + (Render(n) + rest);
    assert s[1..] == Render(n) + rest;
    ComponentOf(n, rest);
  }

  // The text of a version after its optional "v".
  function Text(major: nat, minor: nat, patch: nat, suffix: string): string {
    Render(major) + (['.'] + (Render(minor) + (['.'] + (Render(patch) + suffix))))
  }

  lemma NumbersOfText(major: nat, minor: nat, patch: nat, suffix: string)
    requires major <= MAX_INT && minor <= MAX_INT && patch <= MAX_INT
    requires '\n' !in suffix && (suffix != [] ==> !Digit(suffix[0]))
    ensures Numbers(Text(major, minor, patch, suffix)) ==
            Some(Version(major, minor, patch, suffix != [] && suffix[0] == '-'))
  {
    var third := ['.'] + (Render(patch) + suffix);
    AfterDotOf(patch, suffix);
    AfterDotOf(minor, third);
    ComponentOf(major, ['.'] + (Render(minor) + third));
  }

  /** Every version that fits is read back, with or without its "v", whatever follows the third number. */
  lemma ParseOfText(major: nat, minor: nat, patch: nat, suffix: string)
    requires major <= MAX_INT && minor <= MAX_INT && patch <= MAX_INT
    requires '\n' !in suffix && (suffix != [] ==> !Digit(suffix[0]))
    ensures var text := Text(major, minor, patch, suffix);
            ParseSemver(text) == ParseSemver(['v'] + text)
            == Some(Version(major, minor, patch, suffix != [] && suffix[0] == '-'))
  {
    var text := Text(major, minor, patch, suffix);
    NumbersOfText(major, minor, patch, suffix);
    assert text[0] == Render(major)[0] && Digit(text[0]);
    assert (['v'] + text)[1..] == text;
  }

  // Three numerals with dots between them, and what follows.
  function Joined(a: string, b: string, c: string, suffix: string): string {
    a + (['.'] + (b + (['.'] + (c + suffix))))
  }

  /** How a version is written: with or without a "v", in decimal numerals, which may have leading zeros. */
  predicate Written(tag: string, v: Version, a: string, b: string, c: string, suffix: string) {
    && Bare(tag) == Joined(a, b, c, suffix)
    && a != [] && b != [] && c != [] && AllDigits(a) && AllDigits(b) && AllDigits(c) && '\n' !in suffix
    && v == Version(Number(a), Number(b), Number(c), suffix != [] && suffix[0] == '-')
  }

  /** Nothing else is a version: a tag that is read has three numerals that fit, and the suffix decides about a pre-release. */
  lemma ParsedIsVersion(tag: string) returns (a: string, b: string, c: string, suffix: string)
    requires ParseSemver(tag).Some?
    ensures Written(tag, ParseSemver(tag).value, a, b, c, suffix)
  {
    var r1, r2;
    a, r1 := ComponentIs(Bare(tag));
    b, r2 := AfterDotIs(r1);
    c, suffix := AfterDotIs(r2);
  }

  lemma ComponentIs(s: string) returns (digits: string, rest: string)
    requires Component(s).Some?
    ensures s == digits + rest && digits != [] && AllDigits(digits) && Component(s).value == (Number(digits), rest)
  {
    digits, rest := s[..Leading(s)], s[Leading(s)..];
  }

  lemma AfterDotIs(s: string) returns (digits: string, rest: string)
    requires AfterDot(s).Some?
    ensures s == ['.'] + (digits + rest) && digits != [] && AllDigits(digits) && AfterDot(s).value == (Number(digits), rest)
  {
    digits, rest := ComponentIs(s[1..]);
  }

  /** A number too large for a machine integer makes the tag no version, wherever it stands. */
  lemma ParseRefusesHuge(major: nat, minor: nat, patch: nat, suffix: string)
    requires major > 0x7fff_ffff_ffff_ffff || minor > 0x7fff_ffff_ffff_ffff || patch > 0x7fff_ffff_ffff_ffff
    requires suffix != [] ==> !Digit(suffix[0])
    ensures ParseSemver(Text(major, minor, patch, suffix)).None?
  {
    var third := ['.'] + (Render(patch) + suffix);
    var second := ['.'] + (Render(minor) + third);
    var text := Text(major, minor, patch, suffix);
    assert text[0] == Render(major)[0] && Digit(text[0]);
    ReadsOrRefuses(major, second);
    assert second[1..] == Render(minor) + third && third[1..] == Render(patch) + suffix;
    ReadsOrRefuses(minor, third);
    ReadsOrRefuses(patch, suffix);
  }

  lemma ReadsOrRefuses(n: nat, rest: string)
    requires rest != [] ==> !Digit(rest[0])
    ensures Component(Render(n) + rest) == if n > MAX_INT then None else Some((n, rest))
  {
    NumberOfRender(n);
    LeadingOf(Render(n), rest);
  }

  // ---------- comparing ----------

  predicate Greater(a: Version, b: Version) {
    if a.major != b.major then a.major > b.major
    else if a.minor != b.minor then a.minor > b.minor
    else a.patch > b.patch
  }

  /** Versions compare by major number, then minor, then patch, and two that neither beats differ at most in the suffix. */
  lemma GreaterIsOrder(a: Version, b: Version, c: Version)
    ensures a.major > b.major ==> Greater(a, b)
    ensures a.major == b.major && a.minor > b.minor ==> Greater(a, b)
    ensures a.major == b.major && a.minor == b.minor && a.patch > b.patch ==> Greater(a, b)
    ensures !(Greater(a, b) && Greater(b, a)) && (Greater(a, b) && Greater(b, c) ==> Greater(a, c))
    ensures !Greater(a, b) && !Greater(b, a) <==> a.(pre := false) == b.(pre := false)
  {
  }

  /** The update mode bounds how far a version may move; any other mode does not. */
  predicate Bounded(mode: string, cur: Version, v: Version) {
    && (mode == "minor" ==> v.major == cur.major)
    && (mode == "patch" ==> v.major == cur.major && v.minor == cur.minor)
  }

  // ---------- choosing ----------

  /** The operator's tag pattern: none, one that does not compile, or a filter. */
  datatype Pattern = Unset | Malformed | Filter(matches: string -> bool)

  /** How tags are read, how far an update may go, and which tags are considered. */
  datatype Rule = Rule(parse: string -> Option<Version>, mode: string, pattern: Pattern)
  {
    // A version tag that is not a pre-release and passes the pattern.
    predicate Release(tag: string) {
      (pattern.Filter? ==> pattern.matches(tag)) && parse(tag).Some? && !parse(tag).value.pre
    }

    predicate Candidate(tag: string, cur: Version) {
      Release(tag) && Bounded(mode, cur, parse(tag).value)
    }

    predicate Beats(a: string, b: string) {
      parse(a).Some? && parse(b).Some? && Greater(parse(a).value, parse(b).value)
    }

    predicate Above(tag: string, v: Version) {
      parse(tag).Some? && Greater(parse(tag).value, v)
    }
  }

  ghost predicate NoneAbove(r: Rule, cur: Version, tags: seq<string>, v: Version) {
    forall t | t in tags && r.Candidate(t, cur) :: !r.Above(t, v)
  }

  /** The tag to update to: the first of the highest candidates above the current version. */
  ghost predicate Selected(r: Rule, cur: Version, tags: seq<string>, k: nat) {
    && k < |tags| && r.Candidate(tags[k], cur) && r.Above(tags[k], cur)
    && NoneAbove(r, cur, tags, r.parse(tags[k]).value)
    && (forall i | 0 <= i < k && r.Candidate(tags[i], cur) :: r.Above(tags[k], r.parse(tags[i]).value))
  }

  /** Some(tag) when the current tag is a version, the pattern compiles and a candidate is above it. */
  ghost predicate Selects(r: Rule, current: string, tags: seq<string>, found: Option<string>) {
    if r.parse(current).None? || r.pattern.Malformed? || NoneAbove(r, r.parse(current).value, tags, r.parse(current).value)
    then found.None?
    else exists k: nat :: Selected(r, r.parse(current).value, tags, k) && found == Some(tags[k])
  }

  // The best of the first n tags, by position.
  ghost predicate BestOf(r: Rule, cur: Version, tags: seq<string>, best: Version, at: Option<nat>, n: nat)
    requires n <= |tags|
  {
    match at
    case None => best == cur && NoneAbove(r, cur, tags[..n], cur)
    case Some(k) => k < n && Selected(r, cur, tags[..n], k) && r.parse(tags[k]) == Some(best)
  }

  lemma BestStays(r: Rule, cur: Version, tags: seq<string>, best: Version, at: Option<nat>, n: nat)
    requires n < |tags| && BestOf(r, cur, tags, best, at, n)
    requires r.Candidate(tags[n], cur) ==> !r.Above(tags[n], best)
    ensures BestOf(r, cur, tags, best, at, n + 1)
  {
    assert tags[..n + 1] == tags[..n] + [tags[n]];
  }

  lemma BestMoves(r: Rule, cur: Version, tags: seq<string>, best: Version, at: Option<nat>, n: nat)
    requires n < |tags| && BestOf(r, cur, tags, best, at, n)
    requires r.Candidate(tags[n], cur) && r.Above(tags[n], best)
    ensures BestOf(r, cur, tags, r.parse(tags[n]).value, Some(n), n + 1)
  {
    assert tags[..n + 1] == tags[..n] + [tags[n]];
  }

  method SelectTag(r: Rule, current: string, tags: seq<string>) returns (found: Option<string>)
    requires r.parse("").None?
    ensures Selects(r, current, tags, found)
  {
    var parsed := r.parse(current);
    if parsed.None? || r.pattern.Malformed? { return None; }
    var cur := parsed.value;
    var best, bestTag := cur, "";
    ghost var at: Option<nat> := None;
    for n := 0 to |tags|
      invariant BestOf(r, cur, tags, best, at, n)
      invariant bestTag == if at.Some? then tags[at.value] else ""
    {
      if r.Candidate(tags[n], cur) && Greater(r.parse(tags[n]).value, best) {
        BestMoves(r, cur, tags, best, at, n);
        best, bestTag, at := r.parse(tags[n]).value, tags[n], Some(n);
      } else {
        BestStays(r, cur, tags, best, at, n);
      }
    }
    assert tags[..|tags|] == tags;
    found := if bestTag != "" then Some(bestTag) else None;
    assert at.Some? ==> r.Above(tags[at.value], cur) && tags[at.value] in tags;
  }

  /**
   * A selected version is strictly above the current one and within the mode's bound; every release
   * above it is out of that bound; and selecting again finds nothing.
   */
  lemma SelectedIsTop(r: Rule, current: string, tags: seq<string>, tag: string, again: Option<string>)
    requires Selects(r, current, tags, Some(tag))
    ensures !r.pattern.Malformed? && (r.pattern.Filter? ==> r.pattern.matches(tag))
    ensures tag in tags && r.parse(current).Some? && r.parse(tag).Some? && !r.parse(tag).value.pre
            && Greater(r.parse(tag).value, r.parse(current).value)
            && (r.mode == "minor" || r.mode == "patch" ==> r.parse(tag).value.major == r.parse(current).value.major)
            && (r.mode == "patch" ==> r.parse(tag).value.minor == r.parse(current).value.minor)
    ensures forall t | t in tags && r.parse(t).Some? && Greater(r.parse(t).value, r.parse(tag).value) ::
              || r.parse(t).value.pre || (r.pattern.Filter? && !r.pattern.matches(t))
              || ((r.mode == "minor" || r.mode == "patch") && r.parse(t).value.major != r.parse(current).value.major)
              || (r.mode == "patch" && r.parse(t).value.minor != r.parse(current).value.minor)
    ensures Selects(r, tag, tags, again) ==> again.None?
  {
    var cur := r.parse(current).value;
    var k: nat :| Selected(r, cur, tags, k) && tags[k] == tag;
    var top := r.parse(tag).value;
    assert forall t | t in tags && r.Candidate(t, top) :: r.Candidate(t, cur);
  }

  // ---------- versions in descending order ----------

  predicate Descending(r: Rule, tags: seq<string>) {
    forall i, j | 0 <= i < j < |tags| :: !r.Beats(tags[j], tags[i])
  }

  predicate AllReleases(r: Rule, tags: seq<string>) {
    forall i | 0 <= i < |tags| :: r.Release(tags[i])
  }

  // The place of a tag: before the first one it beats.
  function PlaceOf(r: Rule, t: string, tags: seq<string>): (k: nat)
    ensures k <= |tags| && (forall i | 0 <= i < k :: !r.Beats(t, tags[i])) && (k < |tags| ==> r.Beats(t, tags[k]))
  {
    if tags == [] || r.Beats(t, tags[0]) then 0 else 1 + PlaceOf(r, t, tags[1..])
  }

  function Insert(r: Rule, t: string, tags: seq<string>): seq<string> {
    var k := PlaceOf(r, t, tags);
    tags[..k] + [t] + tags[k..]
  }

  lemma InsertAt(r: Rule, t: string, tags: seq<string>, i: nat)
    requires i <= |tags|
    ensures var k, out := PlaceOf(r, t, tags), Insert(r, t, tags);
            |out| == |tags| + 1 && out[i] == if i < k then tags[i] else if i == k then t else tags[i - 1]
  {
  }

  lemma InsertDescends(r: Rule, t: string, tags: seq<string>, i: nat, j: nat)
    requires Descending(r, tags) && AllReleases(r, tags) && r.Release(t) && i < j <= |tags|
    ensures !r.Beats(Insert(r, t, tags)[j], Insert(r, t, tags)[i])
  {
    var k := PlaceOf(r, t, tags);
    InsertAt(r, t, tags, i);
    InsertAt(r, t, tags, j);
    if i == k {
      assert r.Beats(t, tags[k]);
      assert j - 1 > k ==> !r.Beats(tags[j - 1], tags[k]);
    }
  }

  lemma InsertKeeps(r: Rule, t: string, tags: seq<string>)
    requires Descending(r, tags) && AllReleases(r, tags) && r.Release(t)
    ensures Descending(r, Insert(r, t, tags)) && AllReleases(r, Insert(r, t, tags))
    ensures multiset(Insert(r, t, tags)) == multiset(tags) + multiset{t}
  {
    var k, out := PlaceOf(r, t, tags), Insert(r, t, tags);
    assert tags == tags[..k] + tags[k..];
    forall i | 0 <= i < |out| ensures r.Release(out[i]) { InsertAt(r, t, tags, i); }
    forall i, j | 0 <= i < j < |out| ensures !r.Beats(out[j], out[i]) { InsertDescends(r, t, tags, i, j); }
  }

  function Releases(r: Rule, tags: seq<string>): (out: seq<string>)
    ensures forall t :: t in out <==> t in tags && r.Release(t)
  {
    if tags == [] then []
    else
      var front, last := tags[..|tags| - 1], tags[|tags| - 1];
      assert tags == front + [last];
      Releases(r, front) + if r.Release(last) then [last] else []
  }

  /** The release tags that pass the pattern, each as often as it was offered, highest first. */
  method SemverTagsDesc(r: Rule, tags: seq<string>) returns (out: seq<string>)
    ensures Descending(r, out) && AllReleases(r, out)
    ensures multiset(out) == if r.pattern.Malformed? then multiset{} else multiset(Releases(r, tags))
  {
    out := [];
    if r.pattern.Malformed? { return; }
    for n := 0 to |tags|
      invariant Descending(r, out) && AllReleases(r, out) && multiset(out) == multiset(Releases(r, tags[..n]))
    {
      assert tags[..n + 1][..n] == tags[..n];
      if r.Release(tags[n]) {
        InsertKeeps(r, tags[n], out);
        out := Insert(r, tags[n], out);
      }
    }
    assert tags[..|tags|] == tags;
  }
}
