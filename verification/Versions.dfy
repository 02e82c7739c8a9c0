/** Release tags: parsing, ordering and selection in cmd/xcore-bridge/upgrade.go. */
module Versions {
  import opened Text

  /** upgradeVersion */
  datatype Version = Version(major: int, minor: int, patch: int, prerelease: seq<string>)

  // ---------- parsing ----------

  /** parseVersionNumber as a function: digits that fit an int */
  function Number(s: string): Option<int> {
    if s == [] || !AllDigits(s) then None else Atoi(s)
  }

  /** parseVersionNumber: the loop looks for anything but a digit. */
  method ParseVersionNumber(s: string) returns (r: Option<int>)
    ensures r == Number(s)
  {
    if s == [] {
      return None;
    }
    for i := 0 to |s|
      invariant AllDigits(s[..i])
    {
      if s[i] < '0' || s[i] > '9' {
        return None;
      }
    }
    assert s[..|s|] == s;
    return Atoi(s);
  }

  function Before(s: string, c: char): string {
    s[..Index(s, c)]
  }

  function Behind(s: string, c: char): string {
    if Index(s, c) < |s| then s[Index(s, c) + 1..] else []
  }

  /** The tag without white space around it and one leading "v". */
  function Stripped(raw: string): string {
    var t := Trim(raw);
    if t != [] && t[0] == 'v' then t[1..] else t
  }

  function ParseCore(parts: seq<string>, pre: seq<string>): Option<Version> {
    if |parts| != 3 then None
    else
      match (Number(parts[0]), Number(parts[1]), Number(parts[2]))
      case (Some(x), Some(y), Some(z)) => Some(Version(x, y, z, pre))
      case _ => None
  }

  /** parseUpgradeVersion as a function */
  function Parse(raw: string): Option<Version> {
    var value := Stripped(raw);
    if value == [] || EqualFold(value, "dev") then None
    else
      var base := Before(value, '+');
      var pre := Behind(base, '-');
      ParseCore(Split(Before(base, '-'), '.'), if pre == [] then [] else Split(pre, '.'))
  }

  /** parseUpgradeVersion: the text is cut down step by step. */
  method ParseUpgradeVersion(raw: string) returns (r: Option<Version>)
    ensures r == Parse(raw)
  {
    var value := Trim(raw);
    if value != [] && value[0] == 'v' {
      value := value[1..];
    }
    if value == [] || EqualFold(value, "dev") {
      return None;
    }
    value := Before(value, '+');
    var core, pre := value, [];
    var dash := Index(value, '-');
    assert value[..|value|] == value;
    if dash < |value| {
      core, pre := value[..dash], value[dash + 1..];
    }
    var parts := Split(core, '.');
    if |parts| != 3 {
      return None;
    }
    var major := ParseVersionNumber(parts[0]);
    if major.None? {
      return None;
    }
    var minor := ParseVersionNumber(parts[1]);
    if minor.None? {
      return None;
    }
    var patch := ParseVersionNumber(parts[2]);
    if patch.None? {
      return None;
    }
    return Some(Version(major.value, minor.value, patch.value, if pre == [] then [] else Split(pre, '.')));
  }

  // ---------- which texts are versions ----------

  /** A number that fits an int, as digits. */
  predicate IsNumber(s: string) {
    s != [] && AllDigits(s) && DecimalValue(s) <= MAX_INT64
  }

  /** A version text in its pieces: three numbers, then what follows a hyphen, then what follows a
      plus sign, with a "v" before it and white space around it, if any. */
  datatype Spelling = Spelling(lead: string, mark: string, x: string, y: string, z: string, pre: string,
                               build: string, trail: string) {
    function Core(): string {
      x + "." + y + "." + z
    }

    function Tag(): string {
      Core() + pre + build
    }

    function Text(): string {
      lead + (mark + Tag()) + trail
    }

    predicate Ok() {
      && AllSpace(lead) && AllSpace(trail) && (mark == [] || mark == "v") && Trimmed(Tag())
      && IsNumber(x) && IsNumber(y) && IsNumber(z)
      && (pre == [] || pre[0] == '-') && '+' !in pre && (build == [] || build[0] == '+')
    }

    function Meaning(): Version
      requires Ok()
    {
      Version(DecimalValue(x), DecimalValue(y), DecimalValue(z), if |pre| <= 1 then [] else Split(pre[1..], '.'))
    }
  }

  lemma ThreeParts(x: string, y: string, z: string)
    ensures Join([x, y, z], ".") == x + "." + y + "." + z
  {
    assert [x, y, z][1..] == [y, z] && [y, z][1..] == [z];
    assert Join([y, z], ".") == y + "." + z;
    assert x + "." + (y + "." + z) == x + "." + y + "." + z;
  }

  lemma NotDev(s: string)
    requires s != [] && IsDigit(s[0])
    ensures !EqualFold(s, "dev")
  {
    assert Fold(s[0]) == s[0] && Fold("dev"[0]) == 'd';
  }

  lemma BeforeAt(a: string, c: char, b: string)
    requires c !in a
    ensures Before(a + [c] + b, c) == a && Behind(a + [c] + b, c) == b
    ensures Before(a, c) == a && Behind(a, c) == []
  {
    IndexAt(a, c, b);
    assert (a + [c] + b)[..|a|] == a && (a + [c] + b)[|a| + 1..] == b;
    assert Index(a, c) == |a| && a[..|a|] == a;
  }

  lemma NumberIs(s: string)
    ensures Number(s).Some? <==> IsNumber(s)
    ensures IsNumber(s) ==> Number(s) == Some(DecimalValue(s))
  {
    assert s != [] && AllDigits(s) ==> IsDigit(s[0]);
  }

  /** The text without white space and mark is the tag. */
  lemma StrippedText(s: Spelling)
    requires s.Ok()
    ensures Stripped(s.Text()) == s.Tag() != [] && !EqualFold(s.Tag(), "dev")
  {
    var tag, t := s.Tag(), s.mark + s.Tag();
    TagStarts(s);
    hide Spelling.Tag, Spelling.Core, Trim, DecimalValue, EqualFold, AllSpace;
    NotDev(tag);
    assert Trimmed(t);
    TrimPad(s.lead, t, s.trail);
    assert t[|s.mark|..] == tag;
  }

  lemma TagStarts(s: Spelling)
    requires s.Ok()
    ensures s.Tag() != [] && IsDigit(s.Tag()[0])
  {
    assert s.Tag()[0] == s.x[0];
    hide DecimalValue, AllSpace;
  }

  lemma CoreParts(s: Spelling)
    requires s.Ok()
    ensures '+' !in s.Core() && '-' !in s.Core() && Split(s.Core(), '.') == [s.x, s.y, s.z]
  {
    var parts := [s.x, s.y, s.z];
    forall p | p in parts ensures '.' !in p {
      assert AllDigits(p);
    }
    ThreeParts(s.x, s.y, s.z);
    hide Split;
    SplitOfJoin(parts, '.');
  }

  lemma CutTag(s: Spelling)
    requires s.Ok()
    ensures var base := Before(s.Tag(), '+');
      Before(base, '-') == s.Core() && Behind(base, '-') == if s.pre == [] then [] else s.pre[1..]
  {
    CoreParts(s);
    hide Spelling.Core, Before, Behind, Split, AllSpace, Trimmed, IsNumber;
    CutOff(s.Core() + s.pre, '+', s.build);
    CutOff(s.Core(), '-', s.pre);
  }

  lemma CutOff(a: string, c: char, b: string)
    requires c !in a && (b == [] || b[0] == c)
    ensures Before(a + b, c) == a && Behind(a + b, c) == if b == [] then [] else b[1..]
  {
    hide Before, Behind;
    BeforeAt(a, c, if b == [] then [] else b[1..]);
    assert b != [] ==> a + b == a + [c] + b[1..];
    assert b == [] ==> a + b == a;
  }

  /** Every spelling is read as what it means. */
  lemma SpellingParses(s: Spelling)
    requires s.Ok()
    ensures Parse(s.Text()) == Some(s.Meaning())
  {
    StrippedText(s);
    CutTag(s);
    CoreParts(s);
    NumberIs(s.x);
    NumberIs(s.y);
    NumberIs(s.z);
    hide Spelling.Text, Spelling.Tag, Spelling.Core, Stripped, Before, Behind, Split, Number, EqualFold, AllSpace,
      Trimmed;
  }

  lemma ThreeNumbers(core: string, pre: seq<string>)
    requires ParseCore(Split(core, '.'), pre).Some?
    ensures var parts := Split(core, '.');
      && |parts| == 3 && IsNumber(parts[0]) && IsNumber(parts[1]) && IsNumber(parts[2])
      && core == parts[0] + "." + parts[1] + "." + parts[2]
      && ParseCore(parts, pre).value
         == Version(DecimalValue(parts[0]), DecimalValue(parts[1]), DecimalValue(parts[2]), pre)
  {
    var parts := Split(core, '.');
    hide Split, Number, DecimalValue, IsNumber;
    JoinOfSplit(core, '.');
    NumberIs(parts[0]);
    NumberIs(parts[1]);
    NumberIs(parts[2]);
    assert parts == [parts[0], parts[1], parts[2]];
    ThreeParts(parts[0], parts[1], parts[2]);
  }

  lemma MarkedText(raw: string) returns (lead: string, mark: string, trail: string)
    ensures AllSpace(lead) && AllSpace(trail) && (mark == [] || mark == "v")
    ensures raw == lead + (mark + Stripped(raw)) + trail
    ensures Stripped(raw) != [] && !IsSpace(Stripped(raw)[0]) ==> Trimmed(Stripped(raw))
  {
    lead, trail := TrimSplit(raw);
    var t := Trim(raw);
    hide Trim, AllSpace;
    mark := if t != [] && t[0] == 'v' then "v" else [];
    assert t == mark + Stripped(raw);
  }

  /** Cutting at a character leaves two pieces. */
  lemma CutAt(s: string, c: char)
    ensures var a, b := Before(s, c), s[Index(s, c)..];
      a + b == s && c !in a && (b == [] || b[0] == c) && Behind(s, c) == if b == [] then [] else b[1..]
  {
  }

  lemma SpellingOk(s: Spelling, core: string, value: string)
    requires AllSpace(s.lead) && AllSpace(s.trail) && (s.mark == [] || s.mark == "v")
    requires IsNumber(s.x) && IsNumber(s.y) && IsNumber(s.z) && core == s.x + "." + s.y + "." + s.z
    requires value == core + s.pre + s.build && (value != [] && !IsSpace(value[0]) ==> Trimmed(value))
    requires (s.pre == [] || s.pre[0] == '-') && '+' !in s.pre && (s.build == [] || s.build[0] == '+')
    ensures s.Ok() && s.Text() == s.lead + (s.mark + value) + s.trail
  {
    assert value[0] == s.x[0] && IsDigit(s.x[0]);
    hide AllSpace, DecimalValue;
  }

  /** Whatever is read has such a spelling. */
  lemma ParsedSpelling(raw: string) returns (s: Spelling)
    requires Parse(raw).Some?
    ensures s.Ok() && s.Text() == raw && Parse(raw) == Some(s.Meaning())
  {
    var value := Stripped(raw);
    var base := Before(value, '+');
    var core, rest := Before(base, '-'), Behind(base, '-');
    var parts := Split(core, '.');
    hide Stripped, Split, DecimalValue, EqualFold, AllSpace, Number, Trim, Before, Behind, Index, IsNumber, Spelling.Ok,
      Spelling.Text;
    var lead, mark, trail := MarkedText(raw);
    ThreeNumbers(core, if rest == [] then [] else Split(rest, '.'));
    CutAt(value, '+');
    CutAt(base, '-');
    var pre, build := base[Index(base, '-')..], value[Index(value, '+')..];
    s := Spelling(lead, mark, parts[0], parts[1], parts[2], pre, build, trail);
    assert core + pre + build == value;
    SpellingOk(s, core, value);
  }

  /** parseUpgradeVersion accepts exactly the texts that have such a spelling, and reads what it
      means: so not "v1.2", and no number that does not fit an int. */
  lemma ParsesExactly(raw: string, v: Version)
    ensures Parse(raw) == Some(v) <==> exists s: Spelling :: s.Ok() && s.Text() == raw && s.Meaning() == v
  {
    hide Parse, Spelling.Ok, Spelling.Text, Spelling.Meaning;
    if Parse(raw).Some? {
      var s := ParsedSpelling(raw);
    }
    if s: Spelling :| s.Ok() && s.Text() == raw && s.Meaning() == v {
      SpellingParses(s);
    }
  }

  // ---------- comparing ----------

  function CompareInts(a: int, b: int): int {
    if a < b then -1 else if a > b then 1 else 0
  }

  /** strings.Compare */
  function CompareStrings(a: string, b: string): int
    decreases |a|
  {
    if a == [] then (if b == [] then 0 else -1)
    else if b == [] then 1
    else if a[0] != b[0] then (if a[0] < b[0] then -1 else 1)
    else CompareStrings(a[1..], b[1..])
  }

  /** comparePrereleaseIdentifier */
  function CompareIds(a: string, b: string): int {
    match (Number(a), Number(b))
    case (Some(x), Some(y)) => CompareInts(x, y)
    case (Some(_), None) => -1
    case (None, Some(_)) => 1
    case (None, None) => CompareStrings(a, b)
  }

  /** The loop of comparePrerelease, from some index on. */
  function CompareLists(a: seq<string>, b: seq<string>): int
    decreases |a|
  {
    if a == [] then (if b == [] then 0 else -1)
    else if b == [] then 1
    else if CompareIds(a[0], b[0]) != 0 then CompareIds(a[0], b[0])
    else CompareLists(a[1..], b[1..])
  }

  /** comparePrerelease as a function: no prerelease is above every prerelease. */
  function ComparePrereleases(a: seq<string>, b: seq<string>): int {
    if a == [] && b == [] then 0 else if a == [] then 1 else if b == [] then -1 else CompareLists(a, b)
  }

  /** comparePrerelease: the index runs over the longer list. */
  method ComparePrerelease(a: seq<string>, b: seq<string>) returns (r: int)
    ensures r == ComparePrereleases(a, b)
  {
    if |a| == 0 && |b| == 0 {
      return 0;
    }
    if |a| == 0 {
      return 1;
    }
    if |b| == 0 {
      return -1;
    }
    hide CompareIds;
    var i := 0;
    assert a[0..] == a && b[0..] == b;
    while i < |a| || i < |b|
      invariant i <= |a| && i <= |b| && CompareLists(a, b) == CompareLists(a[i..], b[i..])
      decreases |a| - i
    {
      if i >= |a| {
        return -1;
      }
      if i >= |b| {
        return 1;
      }
      assert a[i..][1..] == a[i + 1..] && b[i..][1..] == b[i + 1..];
      var cmp := CompareIds(a[i], b[i]);
      if cmp != 0 {
        return cmp;
      }
      i := i + 1;
    }
    return 0;
  }

  /** compareUpgradeVersions */
  function CompareVersions(a: Version, b: Version): int {
    if a.major != b.major then CompareInts(a.major, b.major)
    else if a.minor != b.minor then CompareInts(a.minor, b.minor)
    else if a.patch != b.patch then CompareInts(a.patch, b.patch)
    else ComparePrereleases(a.prerelease, b.prerelease)
  }

  /** compareUpgradeTags */
  function Compare(a: string, b: string): int {
    match (Parse(a), Parse(b))
    case (None, None) => CompareStrings(a, b)
    case (None, Some(_)) => -1
    case (Some(_), None) => 1
    case (Some(v), Some(w)) => CompareVersions(v, w)
  }

  // ---------- a total preorder ----------

  /** Three comparison results fit together as in a preorder. */
  predicate Chain(xy: int, yz: int, xz: int) {
    && (xy <= 0 && yz <= 0 ==> xz <= 0)
    && (xy <= 0 && yz <= 0 && (xy < 0 || yz < 0) ==> xz < 0)
  }

  lemma {:induction false} StringsOrder(a: string, b: string, c: string)
    ensures CompareStrings(a, b) == -CompareStrings(b, a) && -1 <= CompareStrings(a, b) <= 1
    ensures CompareStrings(a, b) == 0 <==> a == b
    ensures Chain(CompareStrings(a, b), CompareStrings(b, c), CompareStrings(a, c))
    decreases |a| + |b| + |c|
  {
    if a != [] && b != [] {
      if c == [] {
        StringsOrder(a[1..], b[1..], c);
      } else {
        StringsOrder(a[1..], b[1..], c[1..]);
      }
      assert a[0] == b[0] && a[1..] == b[1..] ==> a == [a[0]] + a[1..] == b;
    }
  }

  lemma IdsOrder(a: string, b: string, c: string)
    ensures CompareIds(a, b) == -CompareIds(b, a) && -1 <= CompareIds(a, b) <= 1
    ensures Chain(CompareIds(a, b), CompareIds(b, c), CompareIds(a, c))
  {
    StringsOrder(a, b, c);
    hide Number, CompareStrings;
  }

  lemma {:induction false} ListsOrder(a: seq<string>, b: seq<string>, c: seq<string>)
    ensures CompareLists(a, b) == -CompareLists(b, a) && -1 <= CompareLists(a, b) <= 1
    ensures Chain(CompareLists(a, b), CompareLists(b, c), CompareLists(a, c))
    decreases |a| + |b| + |c|
  {
    hide CompareIds;
    if a != [] && b != [] {
      if c == [] {
        IdsOrder(a[0], b[0], b[0]);
        ListsOrder(a[1..], b[1..], c);
      } else {
        IdsOrder(a[0], b[0], c[0]);
        IdsOrder(b[0], a[0], c[0]);
        IdsOrder(c[0], b[0], a[0]);
        IdsOrder(c[0], a[0], b[0]);
        ListsOrder(a[1..], b[1..], c[1..]);
      }
    }
  }

  lemma VersionsOrder(a: Version, b: Version, c: Version)
    ensures CompareVersions(a, b) == -CompareVersions(b, a) && -1 <= CompareVersions(a, b) <= 1
    ensures Chain(CompareVersions(a, b), CompareVersions(b, c), CompareVersions(a, c))
  {
    ListsOrder(a.prerelease, b.prerelease, c.prerelease);
    hide CompareLists;
  }

  /** compareUpgradeTags is a total preorder on all strings: it answers -1, 0 or 1, turns its
      sign when the tags change places, and is transitive; and a tag that does not parse is
      below every tag that does. */
  lemma CompareIsPreorder(a: string, b: string, c: string)
    ensures -1 <= Compare(a, b) <= 1 && Compare(a, a) == 0
    ensures Compare(a, b) == -Compare(b, a)
    ensures Compare(a, b) <= 0 && Compare(b, c) <= 0 ==> Compare(a, c) <= 0
    ensures Compare(a, b) <= 0 && Compare(b, c) <= 0 && (Compare(a, b) < 0 || Compare(b, c) < 0) ==> Compare(a, c) < 0
    ensures Parse(a).None? && Parse(b).Some? ==> Compare(a, b) < 0
  {
    hide Parse, CompareVersions, CompareStrings;
    StringsOrder(a, b, c);
    StringsOrder(a, a, a);
    if Parse(a).Some? {
      VersionsOrder(Parse(a).value, Parse(a).value, Parse(a).value);
      if Parse(b).Some? && Parse(c).Some? {
        VersionsOrder(Parse(a).value, Parse(b).value, Parse(c).value);
      } else if Parse(b).Some? {
        VersionsOrder(Parse(a).value, Parse(b).value, Parse(b).value);
      }
    }
  }

  // ---------- selecting a release ----------

  datatype Release = Release(tag: string, prerelease: bool, draft: bool)

  predicate Eligible(r: Release) {
    r.tag != [] && r.prerelease && !r.draft
  }

  predicate Candidate(r: Release) {
    Eligible(r) && Parse(r.tag).Some?
  }

  /** The first maximum among the eligible releases with a version tag stands at index k. */
  predicate FirstMaximum(releases: seq<Release>, k: int) {
    && 0 <= k < |releases| && Candidate(releases[k])
    && (forall j | 0 <= j < |releases| && Candidate(releases[j]) :: Compare(releases[j].tag, releases[k].tag) <= 0)
    && (forall j | 0 <= j < k && Candidate(releases[j]) :: Compare(releases[j].tag, releases[k].tag) < 0)
  }

  /** The first eligible release stands at index k, and no eligible release has a version tag. */
  predicate FirstEligible(releases: seq<Release>, k: int) {
    && 0 <= k < |releases| && Eligible(releases[k])
    && (forall j | 0 <= j < k :: !Eligible(releases[j]))
    && (forall j | 0 <= j < |releases| :: !Candidate(releases[j]))
  }

  /** The selection loop of resolveBetaRelease. */
  method ResolveBeta(releases: seq<Release>) returns (tag: Option<string>, ghost k: int)
    ensures tag.None? <==> forall j | 0 <= j < |releases| ::
      releases[j].tag == [] || !releases[j].prerelease || releases[j].draft
    ensures tag.Some? ==> FirstMaximum(releases, k) || FirstEligible(releases, k)
    ensures tag.Some? ==> tag.value == releases[k].tag != [] && releases[k].prerelease && !releases[k].draft
  {
    hide Parse, Compare;
    var first, best := [], [];
    ghost var f, b := -1, -1;
    for i := 0 to |releases|
      invariant first == [] ==> forall j | 0 <= j < i :: !Eligible(releases[j])
      invariant first != [] ==> 0 <= f < i && Eligible(releases[f]) && first == releases[f].tag
      invariant first != [] ==> forall j | 0 <= j < f :: !Eligible(releases[j])
      invariant best == [] ==> forall j | 0 <= j < i :: !Candidate(releases[j])
      invariant best != [] ==> first != [] && FirstMaximum(releases[..i], b) && best == releases[b].tag
    {
      assert releases[..i + 1] == releases[..i] + [releases[i]];
      var release := releases[i];
      if release.tag != [] && release.prerelease && !release.draft {
        if first == [] {
          first, f := release.tag, i;
        }
        var parsed := ParseUpgradeVersion(release.tag);
        if parsed.None? {
          continue;
        }
        if best != [] {
          MaximumStep(releases, i, b);
        } else {
          OnlyMaximum(releases, i);
        }
        if best == [] || Compare(release.tag, best) > 0 {
          best, b := release.tag, i;
        }
      }
    }
    assert releases[..|releases|] == releases;
    if best != [] {
      return Some(best), b;
    }
    if first != [] {
      return Some(first), f;
    }
    return None, -1;
  }

  lemma OnlyMaximum(releases: seq<Release>, i: nat)
    requires i < |releases| && Candidate(releases[i]) && forall j | 0 <= j < i :: !Candidate(releases[j])
    ensures FirstMaximum(releases[..i + 1], i)
  {
    hide Candidate, Compare;
    CompareIsPreorder(releases[i].tag, releases[i].tag, releases[i].tag);
  }

  /** A candidate replaces the maximum so far exactly when it is greater. */
  lemma MaximumStep(releases: seq<Release>, i: nat, b: int)
    requires i < |releases| && Candidate(releases[i]) && FirstMaximum(releases[..i], b)
    ensures FirstMaximum(releases[..i + 1], if Compare(releases[i].tag, releases[b].tag) > 0 then i else b)
  {
    hide Candidate, Compare;
    var best := releases[b].tag;
    forall j | 0 <= j < i && Candidate(releases[j])
      ensures Compare(releases[i].tag, best) > 0 ==> Compare(releases[j].tag, releases[i].tag) < 0
    {
      assert releases[..i][j] == releases[j];
      CompareIsPreorder(releases[j].tag, best, releases[i].tag);
      CompareIsPreorder(releases[i].tag, best, best);
    }
    CompareIsPreorder(releases[i].tag, releases[i].tag, releases[i].tag);
  }

  // ---------- upgrades to an exact version ----------

  /** validateExactUpgradeVersion accepts. */
  predicate Accepted(current: string, target: string) {
    Parse(target).Some? && (Parse(current).Some? ==> Compare(target, current) > 0)
  }

  /** An exact upgrade is accepted exactly when its target is a version above the current one; from
      a text that is no version, so from "dev", to every version. */
  lemma AcceptedExactly(current: string, target: string)
    ensures Accepted(current, target) <==> Parse(target).Some? && Compare(current, target) < 0
    ensures Parse(current).None? ==> (Accepted(current, target) <==> Parse(target).Some?)
  {
    hide Parse, Compare;
    CompareIsPreorder(current, target, target);
  }

  /** Installed versions along accepted upgrades strictly increase, so none comes back, from
      whatever version the chain starts. */
  lemma {:induction false} UpgradesIncrease(tags: seq<string>, i: nat, j: nat)
    requires forall k | 0 < k < |tags| :: Accepted(tags[k - 1], tags[k])
    requires i < j < |tags|
    ensures Compare(tags[i], tags[j]) < 0 && tags[i] != tags[j]
    decreases j - i
  {
    hide Parse, Compare;
    assert Accepted(tags[j - 1], tags[j]);
    CompareIsPreorder(tags[j - 1], tags[j], tags[j]);
    if i < j - 1 {
      UpgradesIncrease(tags, i, j - 1);
      CompareIsPreorder(tags[i], tags[j - 1], tags[j]);
    }
    CompareIsPreorder(tags[i], tags[i], tags[i]);
  }
}
